# STT-Engine-P core, modelled in Dafny

This project models the self-contained logic of the STT-Engine-P speech-to-text
system, in the system's own terms, and proves properties of that logic.

**Flask web app (`web_app.py`)**

- It accepts an uploaded recording or video and runs a background job.
- The job writes a sequence of status records: `processing`, `transcribing`, `saving`, then `completed` or `failed`.
- Long audio is cut into fixed windows of `chunk_size` minutes. Each window is transcribed, and the chunk results are merged. Segment timestamps are shifted by the window's offset, and the texts are joined with a blank line.
- The app can format a transcript as meeting notes: a summary, key points and action items.

**FastAPI back end (`backend/api`)**

- The transcription service picks a Whisper model size from the duration. It normalises the language code and reshapes the engine's segments.
- It assigns speakers round-robin, records completion statistics and updates the user's totals.
- In real-time mode it keeps a bounded buffer of audio packets.
- The transcriptions router does several things:
  - validates upload extensions and creates the initial record;
  - lists, gets and deletes only the caller's records;
  - resolves a result through an ordered chain of 404/400 errors;
  - creates custom vocabularies, and has a handler listing them that, as the routes are declared, no request reaches (see "## Findings").

**React front end (`frontend/src`)**

- Two Redux slices, `transcription` and `auth`. Each reducer is a pure `(state, action) -> state` step. Each thunk becomes the sequence of actions it dispatches.
- The upload and recording forms, with their file checks, the title derived from the file name, the `m:ss` time display and the submit guards.
- The transcription table, with the duration display, the status colours, which row actions are enabled, and the delete dialog.
- The sign-up page's password validation.

**Demo server (`simple_web_demo.py`)**

- Its sample listing, its canned transcriptions and its parser for the transcriber's console output.

**How the model is built**

- Audio lengths and segment times are integer milliseconds.
- The recognition engine is a function parameter, and an exception it raises is a `Failure` carrying its message.
- Clocks, random ids and the JSON validity test are also parameters.
- Stores are a `map` (the status files) or a `seq` in insertion order (the SQL tables).
- A React component's state is an immutable datatype, and each handler maps it to the next state. When a handler would dispatch a thunk, it returns that request as well.

The modules follow the source:

| module | file |
|---|---|
| `Common` | `Option`/`Result` and sequence helpers |
| `Text` | Python/JavaScript string operations |
| `Chunking` | `web_app.py` `transcribe_audio` |
| `JobStatus` | `web_app.py` upload, worker, `update_status`, `get_status` |
| `MeetingNotes` | `web_app.py` `format_meeting_notes` |
| `WhisperService` | `whisper_service.py` |
| `Models` | the SQL tables' rows |
| `TranscriptionService` | `transcription_service.py` |
| `TranscriptionsRouter` | `transcriptions.py` and `config.py` |
| `Thunks` | the thunks' rejection messages |
| `TranscriptionSlice` | `transcriptionSlice.ts` |
| `AuthSlice` | `authSlice.ts` |
| `UploadForm` | `UploadTranscription.tsx` |
| `RecordForm` | `RecordTranscription.tsx` |
| `TranscriptionListView` | `TranscriptionList.tsx` |
| `RegisterPage` | `register.tsx` |
| `Demo` | `simple_web_demo.py` |

For a chunk size of zero or more, an empty recording is never chunked: `transcribe_audio` (web_app.py:94-115) sends it to the engine whole, like any other recording no longer than one chunk, and `Chunking.TranscribeAudio` models it that way.

Three defects of the code are recorded under "## Findings":

- the video branch of the worker is unreachable;
- the "medium" model size is never chosen;
- the vocabulary listing route is shadowed by the record route.

The model follows the code as written: `JobStatus.RunJob` and `TranscriptionService.ProcessTranscription` keep both defects. The corrected behaviour is modelled beside them, as `JobStatus.CorrectedRunJob` and `TranscriptionService.CorrectedProcessTranscription`.

## Model

| member | source | states |
|---|---|---|
| JobStatus.AllowedFile | web_app.py:35-39 | a name is accepted exactly when it has a '.' and the lower-cased text after its last '.' is one of the ten allowed extensions |
| JobStatus.SplitExt | web_app.py:298-299 | `os.path.splitext`: the name is stem + extension, and the extension is empty or a '.' followed by text with no further '.' or '/' |
| JobStatus.UpdatedRecord | web_app.py:402-453 | a status write always sets id, status, progress and the update time. It sets the error only when it is non-empty, and it keeps only `created_at` and `original_filename` from the prior record (`model_size` and `language` are dropped). With no prior record, `created_at` is the current time. A processing time appears exactly on "completed", and only when both timestamps have the `%Y-%m-%d %H:%M:%S` shape |
| JobStatus.UpdateStatus | web_app.py:402-453 | writing one job's status adds that job id and leaves every other job's record unchanged |
| JobStatus.UploadFile | web_app.py:277-339 | no file part gives 400, an empty name gives 400, and the upload succeeds exactly for an allowed name. It then stores an "uploaded" record at 0% with the ISO creation time, the name's stem, the model size and the language, and passes the worker the extension with its dot |
| JobStatus.WorkerExtension | web_app.py:298 | the extension handed to the worker is empty or starts with '.', and it is the lower-cased tail of the name |
| JobStatus.GetStatus | web_app.py:475-481 | the status of a known job is its stored record; an unknown job gives 404 |
| JobStatus.WorkerWrites | web_app.py:341-400 | the worker always writes "processing" at 10% first and "completed" (100%) or "failed" (0%) last. It completes exactly when no audio extraction was needed or extraction worked, and transcription succeeded. "extracting_audio" is written exactly for video input |
| JobStatus.IsVideoExtension | web_app.py:349 | the corrected video test: a dotted extension is a video exactly when it is '.' followed by one of the five listed video formats |
| JobStatus.WorkerSequence | web_app.py:345-400 | as written, since the dotted extension never equals a bare video name, every upload takes processing(10), transcribing(30), saving(80), completed(100) with the result; a failure instead ends with failed(0) carrying the message |
| JobStatus.DottedNotVideo | web_app.py:349 | no dotted or empty extension is in the bare list of video formats the worker compares against |
| JobStatus.VideoNameExtracts | web_app.py:349-356 | for a name such as "talk.mp4", the worker receives ".mp4", which the source's test rejects and the corrected test accepts. The corrected worker then writes extracting_audio(20) second, and when extraction fails it stops with failed(0) and the extraction error |
| JobStatus.DottedVideoExtension | web_app.py:298 | a stem followed by '.' and a video format yields that format, dotted, as the worker's extension, and the corrected test recognises it |
| JobStatus.VideoWritesExtract | web_app.py:349-356 | for video input, the second write is extracting_audio(20), and a failed extraction ends the job with failed(0) right after it |
| JobStatus.DottedName | web_app.py:298-299 | `splitext` of stem + "." + ext, where ext holds no '.' or '/', gives back the stem and ".ext" |
| JobStatus.PreservedAcrossWrites | web_app.py:426-434 | any sequence of status writes keeps the job's creation time and original file name |
| JobStatus.LastWriteWins | web_app.py:410-423 | after a sequence of writes, the record shows the last write's status, progress and result, and no model size or language |
| JobStatus.NoElapsedWithoutParsableStart | web_app.py:437-444 | when the creation time does not parse with the status-file format, no write ever adds a processing time |
| JobStatus.RunJob | web_app.py:341-400 | as written, a job whose extension came from `splitext` ends completed at 100% exactly when the chunked transcription succeeds, video or not, and failed at 0% otherwise; the record loses its model size and language |
| JobStatus.CorrectedRunJob | web_app.py:349-356 | with the corrected video test, a job ends completed at 100% exactly when, for a video, the audio was extracted, and the transcription succeeded; otherwise failed at 0% |
| JobStatus.WritesFromUpload | web_app.py:314 | for either video decision, a job started from a fresh upload ends completed at 100% or failed at 0%, completing exactly when extraction (if a video) and transcription succeed. It keeps the ISO creation time and file name, and, because the ISO time never parses, it never gets a processing time |
| JobStatus.JobFromUpload | web_app.py:314 | as written, a job started from an upload ends completed at 100% exactly when transcription succeeds, whatever the extension, and failed at 0% otherwise. It keeps the ISO creation time and file name, and never gets a processing time |
| JobStatus.JobOutcome | web_app.py:277-400 | the same for a full upload followed by the worker as written over the chunked transcription: the job completes exactly when `transcribe_audio` succeeds, even for a video |
| JobStatus.CorrectedJobOutcome | web_app.py:277-400 | a full upload followed by the corrected worker completes exactly when, for a video, extraction worked, and `transcribe_audio` succeeded, keeping the creation time and file name and recording no processing time |
| Chunking.LanguageOption | web_app.py:101-103 | the engine is given a language option exactly when the hint is non-empty and not "auto", and the option is then the hint itself |
| Chunking.ChunkPlan | web_app.py:126-131 | the windows start at 0 and step by the chunk length, each ending at min(start + step, length). They are consecutive and pairwise disjoint, they cover every millisecond of the audio, there are ceil(length / step) of them, and only the last may be shorter than a full chunk |
| Chunking.Shift | web_app.py:157-162 | shifting keeps the number of segments and moves both the start and the end of each by the same offset |
| Chunking.MergedSegmentAt | web_app.py:144-167 | segment j of chunk i sits in the merged list right after all segments of earlier chunks, shifted by i chunk lengths: chunk order, then order within a chunk, with no re-sorting |
| Chunking.MergedLength | web_app.py:144-167 | the merged list holds exactly as many segments as all chunks together |
| Chunking.MergedLanguage | web_app.py:177-181 | the merged language is the explicit hint when there is one, otherwise the last chunk's language defaulting to "en"; there is none only with no hint and no chunks |
| Chunking.AggregateLoop | web_app.py:144-181 | the source's chunk-by-chunk accumulation computes exactly the merged result: the joined texts, the shifted segments and the merged language |
| Chunking.TranscribeChunks | web_app.py:144-156 | on success, there is one engine result per window, each being the engine's answer for that window; otherwise, the failure is the first window's failure |
| Chunking.TranscribeAudio | web_app.py:79-183 | audio no longer than the chunk length goes to the engine whole, and its result comes back unchanged. A zero chunk size fails as `range` does. A negative one gives no windows and calls no engine: with an explicit language the result is empty text with no segments in that language, and otherwise reading the unassigned chunk result fails. Otherwise, the result is the merge of the per-window results, or the first failing window's error |
| Chunking.AggregateTextLength | web_app.py:165-167 | the merged text is the chunk texts plus exactly N-1 separators of two newlines |
| Chunking.SingleChunkUnchanged | web_app.py:157-167 | a single chunk's text and segments pass through the merge unchanged |
| Chunking.FortyFiveMinuteExample | web_app.py:126-181 | a 45-minute recording in 30-minute chunks makes two windows, at 0 s and 1800 s. A segment of the second chunk moves by 1800 s, and the texts are joined by a blank line |
| MeetingNotes.NotesText | web_app.py:212-222 | the notes are made from the segment texts joined by spaces when present, else from the `text` entry; any other input has no text |
| MeetingNotes.Summary | web_app.py:225 | the summary is the text itself up to 200 characters. A longer text gives its first 200 characters plus "...", so the summary never exceeds 203 characters and always starts like the text |
| MeetingNotes.SplitSentences | web_app.py:228 | the split pieces, rejoined with the whitespace runs between them, give back the text. Every piece but the last ends at a '.', '!' or '?' followed by whitespace, and no piece contains such a break |
| MeetingNotes.SortLongestFirst | web_app.py:241 | sorting by length, longest first, is a permutation of the sentences |
| MeetingNotes.SortIsOrdered | web_app.py:241 | the sorted sentences are in non-increasing length |
| MeetingNotes.SortIsStable | web_app.py:241 | the sort is stable: sentences of equal length keep their original order |
| MeetingNotes.Backfill | web_app.py:240-246 | backfilling keeps the existing key points as a prefix and stops at three. Every added sentence is a candidate longer than 30 characters, and no added sentence repeats an earlier point |
| MeetingNotes.BackfillSnoc | web_app.py:240-246 | starting below three points, no candidates add nothing, and each further candidate is appended exactly when fewer than three points are listed, it is not yet among them and it is longer than 30 characters: the added points are the first such candidates, in candidate order |
| MeetingNotes.BackfillComplete | web_app.py:242-246 | when the backfill stops short of three points, every candidate longer than 30 characters is among them |
| MeetingNotes.KeyPoints | web_app.py:232-246 | there are at most five key points, each a sentence of the transcript |
| MeetingNotes.EnoughKeywordSentences | web_app.py:232-237 | with three or more keyword sentences, the key points are the first five of them |
| MeetingNotes.BackfilledKeyPoints | web_app.py:232-246 | with fewer than three keyword sentences, the key points are exactly the backfill of the keyword sentences from the five longest sentences, longest first (so the five-item cut never applies). All keyword sentences come first, followed, up to three in all, by distinct, not yet present sentences longer than 30 characters, drawn from the five longest |
| MeetingNotes.BackfillTakesLongest | web_app.py:240-246 | each backfilled point is at least as long as any sentence outside the five longest |
| MeetingNotes.ActionItems | web_app.py:249-255 | the action items are at most five sentences with an action word and over 20 characters; when at most five qualify, all of them are listed |
| MeetingNotes.ActionItemsSnoc | web_app.py:249-255 | no sentences give no action items, and a further sentence is appended exactly when it qualifies and fewer than five are listed: the action items are the first five qualifying sentences in transcript order |
| Common.FilterAppend | web_app.py:235-237 | filtering a concatenation is the concatenation of the filtered parts, so the kept sentences stay in transcript order |
| MeetingNotes.FormatMeetingNotes | web_app.py:207-266 | the notes fail with "Invalid transcription format" exactly when no text can be found. Otherwise they carry the full text, the summary, and at most five key points and action items, all drawn from its sentences |
| MeetingNotes.NotesOfResult | web_app.py:212-222 | notes of a transcription result are made from its segment texts joined by spaces |
| WhisperService.GetModel | backend/api/services/whisper_service.py:28-32 | a cached size returns the cached model and changes nothing. An uncached size loads one model, counts one load and caches it, and the other cached models stay |
| WhisperService.LoadsOncePerSize | backend/api/services/whisper_service.py:28-32 | serving any sequence of requests loads exactly one model per distinct size not already cached. Each request receives the cached model of its size |
| WhisperService.NormalizeLanguage | backend/api/services/whisper_service.py:98-101 | a non-empty code gives a language option: its text before the first '-' ("en-US" becomes "en"), which contains no '-'. No code, or an empty one, gives no option |
| WhisperService.NormalizeIdempotent | backend/api/services/whisper_service.py:98-101 | normalising an already normalised code changes nothing |
| WhisperService.MapSegments | backend/api/services/whisper_service.py:107-115 | each raw segment gives exactly one output segment, in order. The output keeps start, end and text, has speaker "speaker_1", and its confidence defaults to 0.9 |
| WhisperService.ResultLanguage | backend/api/services/whisper_service.py:122 | the result language is the engine's when given, else the caller's un-normalised code, else "en" |
| WhisperService.TranscribeAudio | backend/api/services/whisper_service.py:70-125 | the engine's failure is passed on. On success, the text is the engine's, with the segments reshaped and the language chosen as above |
| WhisperService.PyMod | backend/api/services/whisper_service.py:161 | Python's `%`: the remainder takes the divisor's sign and agrees with Dafny's for a positive divisor |
| WhisperService.Diarize | backend/api/services/whisper_service.py:157-164 | speaker assignment fails (modulo by zero) exactly when zero speakers are asked for and there are segments. Otherwise it changes only speaker ids, keeping the count and every other field |
| WhisperService.TranscribeWithDiarization | backend/api/services/whisper_service.py:127-166 | diarized transcription is the plain transcription followed by speaker assignment, and fails when the transcription does |
| WhisperService.DiarizedIds | backend/api/services/whisper_service.py:157-161 | with k > 0 speakers, segment i gets `speaker_{(i mod k)+1}` |
| WhisperService.DiarizedSpeakers | backend/api/services/whisper_service.py:157-161 | with k > 0 speakers, every id is one of speaker_1..speaker_k, and exactly min(segments, k) distinct ids are used |
| WhisperService.SpeakerIdInjective | backend/api/services/whisper_service.py:161 | distinct speaker numbers render as distinct ids |
| WhisperService.IdRangeSize | backend/api/services/whisper_service.py:161 | speaker_1..speaker_m are m distinct ids |
| TranscriptionService.ChooseModelSize | backend/api/services/transcription_service.py:80-84 | as written: "small" past 10 minutes, else "base" |
| TranscriptionService.MediumNeverChosen | backend/api/services/transcription_service.py:80-84 | as written, "medium" is never chosen |
| TranscriptionService.ModelSize | backend/api/services/transcription_service.py:80-84 | corrected: "medium" exactly past 30 minutes, "small" exactly past 10 minutes up to 30, "base" otherwise |
| TranscriptionService.ModelSizeDiffersAfterHalfHour | backend/api/services/transcription_service.py:80-84 | the two choices agree up to 30 minutes and differ on every longer recording |
| TranscriptionService.SpeakerCount | backend/api/services/transcription_service.py:121 | the speaker count is zero exactly when there are no segments, and never more than the segments |
| TranscriptionService.CountBound | backend/api/services/transcription_service.py:121 | there are no more distinct speaker ids than segments |
| TranscriptionService.Completed | backend/api/services/transcription_service.py:115-121 | completion sets status, document id, word count (the whitespace-separated tokens of the text), diarization flag (non-empty segments) and speaker count, and nothing else |
| TranscriptionService.ProcessWith | backend/api/services/transcription_service.py:20-142 | whatever the size choice, a missing record leaves everything unchanged. Otherwise, only that record changes: it keeps its id and owner, and ends "completed" or "failed" |
| TranscriptionService.ProcessTranscription | backend/api/services/transcription_service.py:20-142 | as written: a missing record leaves everything unchanged. Otherwise, only that record changes: it keeps its id and owner, and ends "completed" or "failed" |
| TranscriptionService.CorrectedProcessTranscription | backend/api/services/transcription_service.py:80-84 | with the corrected size choice: a missing record leaves everything unchanged; otherwise only that record changes, keeping its id and owner and ending "completed" or "failed" |
| TranscriptionService.ProcessOutcome | backend/api/services/transcription_service.py:36-135 | as written: a load failure ends "failed" with the "Failed to load audio file" message. Vocabulary terms that are JSON but not an object end "failed" with the bare attribute error. The engine is asked for "small" past 10 minutes and "base" otherwise, and its failure ends "failed" with the "Transcription failed" message. All of these leave the user totals alone. On success, the record gets the duration and statistics, and only its owner's totals change: count + 1, seconds + duration. A missing owner ends "failed" with the attribute error |
| TranscriptionService.CorrectedProcessOutcome | backend/api/services/transcription_service.py:80-105 | the corrected run is identical to the run as written up to 30 minutes of audio; past that it asks the engine for "medium", and completes exactly when that transcription succeeds and the owner exists |
| TranscriptionService.CompletedSpeakerCount | backend/api/services/transcription_service.py:121 | with the default two speakers, the recorded speaker count is min(segments, 2) |
| TranscriptionService.WordCountOfJoin | backend/api/services/transcription_service.py:118 | words joined by single spaces count as exactly that many words |
| TranscriptionService.StreamLength | backend/api/services/transcription_service.py:161-171 | the stream ends at the first empty packet: all packets before it are non-empty |
| TranscriptionService.RealTime | backend/api/services/transcription_service.py:144-239 | the audio kept is all packets before the end of the stream, and the buffer never exceeds 20 packets. The intermediate replies are non-final, each being the transcript of the audio received so far whenever the buffer reaches 20. When audio arrived, the last reply is the final transcript of all of it |
| TranscriptionService.FlattenPrefix | backend/api/services/transcription_service.py:174-175 | the received audio only grows as packets arrive |
| Models.FindById | backend/api/services/transcription_service.py:36 | the lookup finds the first record with that id, and none exactly when no record has it |
| TranscriptionsRouter.FileExtension | backend/api/routers/transcriptions.py:40-45 | the upload extension is the lower-cased whole name when there is no '.' |
| TranscriptionsRouter.ExtensionOfDottedName | backend/api/routers/transcriptions.py:40-45 | for stem + "." + ext, the extension is the lower-cased ext |
| TranscriptionsRouter.CreateTranscription | backend/api/routers/transcriptions.py:40-74 | an extension outside the allowed list is refused with 400 and nothing is written. Otherwise exactly one record is appended: "pending", duration 0.0, size equal to the content length, format equal to the extension, no statistics, and the requested `is_public` flag and `custom_vocabulary_id` |
| TranscriptionsRouter.Owned | backend/api/routers/transcriptions.py:98 | the caller's records are exactly the table's records with the caller's user id |
| TranscriptionsRouter.ListTranscriptions | backend/api/routers/transcriptions.py:92-100 | a negative `skip` or `limit` fails the request with 500, as PostgreSQL rejects a negative OFFSET or LIMIT. Otherwise a listing holds only the caller's records, the ones after the first `skip` in table order, and min(limit, what remains) of them |
| TranscriptionsRouter.FindOwned | backend/api/routers/transcriptions.py:109-118 | the lookup finds the first record with that id owned by the caller, and none exactly when there is no such record |
| TranscriptionsRouter.GetTranscription | backend/api/routers/transcriptions.py:109-120 | a get returns a record of the caller with that id, or 404 exactly when there is none |
| TranscriptionsRouter.GetTranscriptionResult | backend/api/routers/transcriptions.py:129-169 | the lookup checks in order: missing or not owned gives 404, not completed gives 400 with the status, no document id gives 404, a missing document gives 404. Otherwise the result pairs the document's text and segments with the record's language and statistics |
| TranscriptionsRouter.ResultOnlyWhenCompleted | backend/api/routers/transcriptions.py:129-169 | a result is only ever served for a completed record of the caller whose document exists, with the record's language; every refusal is a 400 or a 404 |
| TranscriptionsRouter.DeleteTranscription | backend/api/routers/transcriptions.py:178-199 | deleting removes exactly the found record, and its document when it has an id. A record that is missing or not the caller's gives 404 |
| TranscriptionsRouter.DeleteKeepsOthers | backend/api/routers/transcriptions.py:178-199 | a delete never changes another user's records or their order |
| TranscriptionsRouter.OwnedConcat | backend/api/routers/transcriptions.py:98 | owner filtering distributes over concatenation, so it keeps the table's order |
| TranscriptionsRouter.CreateVocabulary | backend/api/routers/transcriptions.py:211-231 | terms that are not valid JSON are refused with 400 before anything is written. Otherwise exactly one vocabulary is appended |
| TranscriptionsRouter.ListVocabularies | backend/api/routers/transcriptions.py:238-242 | the handler `get_custom_vocabularies` returns exactly the caller's vocabularies (as declared, no request reaches it) |
| TranscriptionsRouter.FirstMatch | backend/api/routers/transcriptions.py:91-233 | the route chosen is the first in declaration order that matches the path, and none is chosen exactly when no route matches |
| TranscriptionsRouter.DispatchGet | backend/api/routers/transcriptions.py:103-107 | no matching route gives 404; otherwise the first match's handler takes the request, after the id check |
| TranscriptionsRouter.RouteGet | backend/api/routers/transcriptions.py:91-233 | as declared, `/` lists, an integer segment gets a record, `/vocabulary` is refused with 422 because `/{transcription_id}` takes it first, and no path reaches the vocabulary listing |
| TranscriptionsRouter.CorrectedRouteGet | backend/api/routers/transcriptions.py:91-233 | with `/vocabulary` declared before `/{transcription_id}`, the vocabulary listing is reached by exactly the path `/vocabulary` |
| TranscriptionsRouter.ReorderFreesOnlyVocabulary | backend/api/routers/transcriptions.py:91-233 | the reordering changes where `/vocabulary` goes, from 422 to the listing, and where no other path goes |
| Thunks.RejectMessage | frontend/src/store/slices/transcriptionSlice.ts:78-83 | a rejection carries the server's non-empty `detail`, otherwise the thunk's fallback message |
| TranscriptionSlice.WithoutId | frontend/src/store/slices/transcriptionSlice.ts:300-307 | removal keeps exactly the entries whose id differs |
| TranscriptionSlice.Reduce | frontend/src/store/slices/transcriptionSlice.ts:226-311 | setUploadProgress, clearCurrentTranscription and clearError change only their fields. Every pending case sets loading and clears the error, and every rejected case stops loading and stores the message. The upload's pending and rejected cases also reset the progress to 0. The three fetch fulfilments stop loading and install the fetched list, current record or result, and touch nothing else |
| TranscriptionSlice.UploadPrepends | frontend/src/store/slices/transcriptionSlice.ts:284-289 | a fulfilled upload puts the new item in front of the others, unchanged, makes it current and sets progress to 100 |
| TranscriptionSlice.DeleteRemovesExactly | frontend/src/store/slices/transcriptionSlice.ts:300-307 | a fulfilled delete removes exactly the entries with that id. It clears the current item and result only when the current id matches |
| TranscriptionSlice.DeleteKeepsOrder | frontend/src/store/slices/transcriptionSlice.ts:300-307 | a delete keeps the other entries in their order |
| TranscriptionSlice.WithoutAbsentId | frontend/src/store/slices/transcriptionSlice.ts:300-307 | deleting an id that is not listed leaves the list unchanged |
| TranscriptionSlice.ProgressPercent | frontend/src/store/slices/transcriptionSlice.ts:178-183 | the progress is loaded * 100 / total, rounded half up as `Math.round` does |
| TranscriptionSlice.ProgressBounds | frontend/src/store/slices/transcriptionSlice.ts:178-183 | the progress lies in 0..100, is 0 with nothing sent, and 100 when all is sent |
| TranscriptionSlice.ProgressActions | frontend/src/store/slices/transcriptionSlice.ts:178-183 | an event dispatches a progress action exactly when its total is positive; the actions follow the events in order, one per such event, each carrying the rounded percentage of that event |
| TranscriptionSlice.ThunkActions | frontend/src/store/slices/transcriptionSlice.ts:61-220 | every thunk dispatches pending first. Without a token it is rejected with "No authentication token" and no request. With one, only the upload dispatches progress in between, and the run ends with the fulfilled action carrying the server's reply (for a deletion, the id it was asked to delete) or with the server's detail or the thunk's fallback message |
| TranscriptionSlice.ProgressOnlyTouchesProgress | frontend/src/store/slices/transcriptionSlice.ts:226-228 | any number of progress updates change only the upload progress |
| TranscriptionSlice.ReduceAllConcat | frontend/src/store/slices/transcriptionSlice.ts:237-311 | reducing two action sequences in turn is reducing their concatenation |
| TranscriptionSlice.NoTokenRun | frontend/src/store/slices/transcriptionSlice.ts:67-69 | a thunk run without a token leaves the list, current item and result unchanged, stops loading and shows "No authentication token" |
| TranscriptionSlice.UploadActions | frontend/src/store/slices/transcriptionSlice.ts:139-194 | a successful upload dispatches pending, its progress actions, then the created record |
| TranscriptionSlice.DeleteRun | frontend/src/store/slices/transcriptionSlice.ts:196-220 | a successful deletion run removes every record with that id, stops loading, leaves no error and keeps the progress |
| TranscriptionSlice.FetchRun | frontend/src/store/slices/transcriptionSlice.ts:61-134 | a successful fetch run installs what the server returned, stops loading and leaves no error |
| TranscriptionSlice.UploadRun | frontend/src/store/slices/transcriptionSlice.ts:139-194 | a successful upload run ends with the new item prepended and current, progress 100, no error, and loading stopped |
| AuthSlice.Initial | frontend/src/store/slices/authSlice.ts:21-27 | the initial state is not authenticated, even when a stored token is restored |
| AuthSlice.Reduce | frontend/src/store/slices/authSlice.ts:113-168 | logout clears the user, the token, the authentication and the error, and keeps loading as it was. Every pending case sets loading and clears the error. A rejection keeps the authentication except for the profile fetch, which clears it. Login and profile success authenticate, while register success only stops loading |
| AuthSlice.AuthenticationChanges | frontend/src/store/slices/authSlice.ts:128-168 | only login or profile success can authenticate, and only logout or a failed profile fetch can de-authenticate |
| AuthSlice.RegisterNeverAuthenticates | frontend/src/store/slices/authSlice.ts:143-153 | no sequence of register actions authenticates |
| AuthSlice.LoginActions | frontend/src/store/slices/authSlice.ts:29-61 | login dispatches pending, then fulfilled with the token and profile, or a rejection from whichever request failed first |
| AuthSlice.RegisterActions | frontend/src/store/slices/authSlice.ts:63-85 | register dispatches pending, then fulfilled or the rejection message |
| AuthSlice.ProfileActions | frontend/src/store/slices/authSlice.ts:87-108 | the profile fetch is rejected without a request when there is no token |
| AuthSlice.LoginStorage | frontend/src/store/slices/authSlice.ts:41 | the stored token is replaced as soon as a token arrives, whatever happens next |
| AuthSlice.LogoutStorage | frontend/src/store/slices/authSlice.ts:115 | logout removes the stored token |
| AuthSlice.LoginRun | frontend/src/store/slices/authSlice.ts:29-61 | a login run authenticates with the new token and user exactly when both requests succeed. Otherwise it keeps the session as it was and shows an error |
| AuthSlice.ProfileRun | frontend/src/store/slices/authSlice.ts:87-108 | a profile fetch ends authenticated exactly when there is a token and the request succeeds |
| AuthSlice.LoginStorageDiverges | frontend/src/store/slices/authSlice.ts:41-48 | when the profile request fails after the token arrived, the stored token is the new one while the state keeps the old token |
| UploadForm.Initial | frontend/src/components/UploadTranscription.tsx:29-33 | the form starts with no title, no file, no error, "en-US" and private |
| UploadForm.StripExtension | frontend/src/components/UploadTranscription.tsx:64 | removing `/\.[^/.]+$/` drops the final '.' and its tail when that tail is non-empty and free of '.' and '/', and otherwise keeps the name |
| UploadForm.StripExtensionRoundTrip | frontend/src/components/UploadTranscription.tsx:64 | a stem plus '.' plus an extension-like tail strips back to the stem |
| UploadForm.FileError | frontend/src/components/UploadTranscription.tsx:44-56 | a file is accepted exactly when its type is one of the six audio types and it is at most 100 MiB. The type is checked before the size |
| UploadForm.FileChange | frontend/src/components/UploadTranscription.tsx:39-68 | a refused file clears the selection and shows why. An accepted one is selected, clears the error, and fills an empty title with the name less its extension |
| UploadForm.ClearFile | frontend/src/components/UploadTranscription.tsx:94-100 | clearing removes the file and the error, and keeps the rest |
| UploadForm.Submit | frontend/src/components/UploadTranscription.tsx:70-92 | an upload is requested exactly with a file and a title. No file gives an error, and an empty title silently does nothing |
| UploadForm.SubmitEnabledIff | frontend/src/components/UploadTranscription.tsx:232 | the button is enabled exactly when nothing is loading and submitting would upload |
| UploadForm.FreshSelectionEnablesSubmit | frontend/src/components/UploadTranscription.tsx:58-66 | picking an accepted file on a fresh form titles it with the file's stem and enables the button |
| UploadForm.SizeLimitBoundary | frontend/src/components/UploadTranscription.tsx:52-56 | exactly 100 MiB is accepted, and one byte more is refused |
| RecordForm.TwoDigits | frontend/src/components/RecordTranscription.tsx:72 | padding a number below 100 gives two digits that read back as the number |
| RecordForm.FormatTime | frontend/src/components/RecordTranscription.tsx:69-73 | the display is digits, a colon, and two digits |
| RecordForm.FormatTimeRoundTrip | frontend/src/components/RecordTranscription.tsx:69-73 | reading the display back as 60 * minutes + seconds recovers the time |
| RecordForm.Initial | frontend/src/components/RecordTranscription.tsx:33-40 | the form starts not recording, at 0 s, with no audio, not playing and with no error |
| RecordForm.StartRecording | frontend/src/components/RecordTranscription.tsx:75-116 | with microphone access, recording starts at 0 s with the timer running and the error cleared; without it, only the error is set |
| RecordForm.Tick | frontend/src/components/RecordTranscription.tsx:107-109 | each timer firing adds one second while the timer runs |
| RecordForm.TicksCount | frontend/src/components/RecordTranscription.tsx:107-109 | n firings add exactly n seconds and change nothing else |
| RecordForm.StopRecording | frontend/src/components/RecordTranscription.tsx:118-129 | stopping does nothing unless a recorder is recording, and otherwise stops recording and the timer |
| RecordForm.RecorderStopped | frontend/src/components/RecordTranscription.tsx:88-100 | the stop handler keeps the audio and names the recording "Recording …" when the title was empty when recording began, changing nothing else |
| RecordForm.TypedTitleReplaced | frontend/src/components/RecordTranscription.tsx:93 | the stop handler ignores the current title: for a recording that began untitled, any title present at stop time is replaced. The form cannot reach that state, as the title field is disabled while recording |
| RecordForm.EditTitle | frontend/src/components/RecordTranscription.tsx:200-207 | typing sets the title, except while an upload runs or a recording is in progress, when nothing changes |
| RecordForm.TitleEditsIgnoredWhileRecording | frontend/src/components/RecordTranscription.tsx:206 | any amount of typing during a recording leaves the state unchanged |
| RecordForm.RecordingRunWithEdits | frontend/src/components/RecordTranscription.tsx:88-100 | a recording ends titled by the title it began with, or "Recording …" when that was empty, whatever was typed in between |
| RecordForm.Play | frontend/src/components/RecordTranscription.tsx:131-139 | playing starts only when there is audio |
| RecordForm.Pause | frontend/src/components/RecordTranscription.tsx:141-146 | pausing stops playback and nothing else |
| RecordForm.DeleteRecording | frontend/src/components/RecordTranscription.tsx:148-155 | deleting clears the audio and playback and nothing else |
| RecordForm.RecordingRun | frontend/src/components/RecordTranscription.tsx:75-129 | recording for n ticks then stopping shows n seconds, keeps the audio and titles it, and enables the submit button when idle |
| RecordForm.Submit | frontend/src/components/RecordTranscription.tsx:157-182 | an upload is requested exactly with audio and a title, as a WAV file named title + ".wav". No audio gives an error, and an empty title does nothing |
| RecordForm.SubmitEnabledIff | frontend/src/components/RecordTranscription.tsx:346 | the button is enabled exactly when idle, not recording, and submitting would upload |
| RecordForm.RecordedNameAccepted | frontend/src/components/RecordTranscription.tsx:170 | a recording's file name has the "wav" extension, which the upload endpoint accepts, and strips back to the title |
| TranscriptionListView.Trunc | frontend/src/components/TranscriptionList.tsx:66 | JavaScript's `%` truncates toward zero |
| TranscriptionListView.DurationParts | frontend/src/components/TranscriptionList.tsx:64-68 | for a non-negative duration, the parts are the whole minutes and the whole seconds left over, below 60 |
| TranscriptionListView.FormatDurationWhole | frontend/src/components/TranscriptionList.tsx:64-68 | the duration display equals the recording form's display of the whole seconds, and reads back to them |
| TranscriptionListView.StatusColor | frontend/src/components/TranscriptionList.tsx:75-88 | completed maps to success, processing to warning, pending to info and failed to error, each in both directions; anything else to default |
| TranscriptionListView.ColorRoundTrip | frontend/src/components/TranscriptionList.tsx:75-88 | a colour names back the status it came from exactly for the four known statuses |
| TranscriptionListView.RowOf | frontend/src/components/TranscriptionList.tsx:133-172 | view and download are enabled exactly for completed transcriptions; delete always is |
| TranscriptionListView.Render | frontend/src/components/TranscriptionList.tsx:90-175 | loading shows a spinner, an empty list an invitation, otherwise one row per transcription in order |
| TranscriptionListView.RowActions | frontend/src/components/TranscriptionList.tsx:152-170 | in a rendered table, each row's actions follow its transcription's status |
| TranscriptionListView.DeleteClick | frontend/src/components/TranscriptionList.tsx:46-49 | clicking delete opens the dialog on that id |
| TranscriptionListView.Confirm | frontend/src/components/TranscriptionList.tsx:51-57 | confirming deletes the target only when one is set, then closes the dialog |
| TranscriptionListView.Cancel | frontend/src/components/TranscriptionList.tsx:59-62 | cancelling closes the dialog and clears the target |
| TranscriptionListView.DeleteFlow | frontend/src/components/TranscriptionList.tsx:46-62 | click then confirm deletes exactly that row's transcription; click then cancel deletes nothing |
| RegisterPage.ValidateForm | frontend/src/pages/register.tsx:42-55 | the passwords pass exactly when they match and have at least 8 characters. A mismatch is reported before the length, and passing clears the error |
| RegisterPage.Submit | frontend/src/pages/register.tsx:57-77 | registration is requested exactly when the passwords pass and username and email are set; an empty full name is left out |
| RegisterPage.EnabledSubmit | frontend/src/pages/register.tsx:165 | with the button enabled, submitting registers exactly when the passwords pass, and otherwise shows the first failing check |
| RegisterPage.RequestHasValidPassword | frontend/src/pages/register.tsx:42-70 | every registration request carries a confirmed password of at least 8 characters |
| Demo.ListSamples | simple_web_demo.py:23-33 | the listing holds exactly the names ending in .wav, .mp3, .ogg or .flac, each with its /samples/ path |
| Demo.Transcribe | simple_web_demo.py:40-88 | the two known samples get their canned records, and anything else gets the default one |
| Demo.TranscribeShape | simple_web_demo.py:49-88 | every canned record is English with one segment from 0 s holding the whole text |
| Demo.ParseTranscript | simple_web_demo.py:111-135 | output without "Transcription:" gives the not-found message; a parsed text never begins or ends with whitespace |
| Demo.RunWhisperResponse | simple_web_demo.py:148-160 | the response always has language "en", the parsed processing time, the captured console output echoed as `command_output`, and exactly one segment [0.0, 3.0] holding the parsed text |
| Demo.ParseEndMarked | simple_web_demo.py:117-121 | with an END_TRANSCRIPTION marker, the text before it is stripped, its 14-dash runs removed, and stripped again |
| Demo.ParseEndMarkedRoundTrip | simple_web_demo.py:111-121 | a stripped, dash-free transcript placed between the markers is recovered exactly |
| Demo.ParseUndelimited | simple_web_demo.py:123-135 | with no delimiter after the marker, the whole remainder is taken, stripped |
| Demo.FirstRunOccurrence | simple_web_demo.py:123-131 | a delimiter made of one repeated character is split at the first place it occurs |
| Demo.SectionAfterMarker | simple_web_demo.py:113-116 | with a single "Transcription:", everything after it is the section parsed |
| Demo.ParseEqualsDelimited | simple_web_demo.py:122-125 | without an end marker, the text before the first "===" is taken, stripped, whatever "---" or blank lines it holds |
| Demo.ParseDashDelimited | simple_web_demo.py:122-128 | without an end marker or "===", the text before the first "---" is taken, stripped, whatever blank lines it holds |
| Demo.ParseBlankLineDelimited | simple_web_demo.py:122-131 | without an end marker, "===" or "---", the text before the first blank line is taken, stripped |
| Demo.SecondMarkerEndsSection | simple_web_demo.py:114-116 | only the text between the first and second "Transcription:" is looked at |

## Left out

- Recognition, decoding and extraction: Whisper inference, pydub/librosa decoding and ffmpeg extraction are outside the model. The engine is a function parameter, and extraction success is a boolean parameter.
- Audio lengths and segment times are integer milliseconds; the source uses float seconds.
- The chunk size is an integer number of minutes. Parsing the form's `chunk_size` string is not modelled.
- File, JSON and database I/O: the status files, the notes files, the SQL and Mongo sessions, and reading a finished job's result files. The `jobs` dictionary, the background threads and their timing are left out too.
- Floating point:
  - the confidence mean (`np.mean`) and the stored `confidence_score`;
  - `format_time`'s rounding;
  - the float value of processing times;
  - the demo's parse of "Processing time:".
  The demo's processing time is a parameter.
- Dates:
  - the timestamps are opaque strings from a clock parameter;
  - parsing is a check of the `%Y-%m-%d %H:%M:%S` shape;
  - the elapsed time is kept as its pair of timestamps;
  - the front end's date display and the recording's date stamp are a string parameter.
- Regular expressions are stated as explicit functions: the sentence split on `(?<=[.!?])\s+` and the `/\.[^/.]+$/` extension strip. Python's `lower()` and `isspace()` are modelled on ASCII, and JavaScript string lengths count characters rather than UTF-16 units.
- `preprocess_audio` is pure file conversion. `list_jobs`, `serve_sample` and ObjectId parsing are plumbing.
- The custom vocabulary reaches `process_transcription` as the shape of its stored `terms` text. A requested id that is not found is the same as no vocabulary. The term list itself is left out, because with diarization always on it is never passed to the engine. Only its failure path is modelled: JSON that is not an object makes `.keys()` raise, and the record fails with that error.
- The demo's subprocess run and `time.sleep` are left out. `os.listdir`'s order is the order of the given names.
- React plumbing:
  - `onSuccess` callbacks and navigation;
  - the language select and the public switch handlers, which only set their field;
  - effect clean-up;
  - MediaRecorder and Audio playback;
  - the login page and the other pages, which hold no logic of their own.
- HTTP, WebSocket and axios transport are left out. A failed request is a `RequestFailure` value, and the WebSocket is the sequence of packets it delivers.
- Thunks.RejectMessage: the response's `detail` is taken to be a string. The list FastAPI sends with a 422 is left out; in JavaScript even an empty list is truthy, so it would be passed on as the message.
- Authentication, password hashing, CORS, configuration other than the allowed extensions, and the command-line scripts are left out.
- TranscriptionService.ProcessTranscription: the confidence score and the processing timestamps are not set, because they are floating point and clock values.
- WhisperService.TranscribeAudio: the result's `confidence` field is left out, because it is a floating-point mean. It is also NaN when there are no segments.
- TranscriptionService.RealTime: the intermediate and final replies carry the transcript text and whether it is final. The replies' `confidence` field is left out, because it is the engine's floating-point mean. The temporary file the audio is written to before each transcription is left out too.
- MeetingNotes.Backfill: its own contract states the prefix, the bound, and that the added points are long, distinct candidates. Which candidates are taken, and in what order, is stated by `MeetingNotes.BackfillSnoc`.
- MeetingNotes.ActionItems: its own contract states the bound, the membership, and that all qualifying sentences are listed when at most five qualify. The choice of the first five, in transcript order, is stated by `MeetingNotes.ActionItemsSnoc`.
- MeetingNotes.KeyPoints: its own contract states only the bound and the source of the points. The full selection is stated by three lemmas. `EnoughKeywordSentences` covers three or more keyword sentences. `BackfilledKeyPoints` covers fewer, reducing the key points to a backfill, and `BackfillSnoc` fixes that backfill's choice and order. The keyword list is kept in order by `Common.FilterAppend`.
- TranscriptionsRouter.ListTranscriptions: a rejected negative OFFSET or LIMIT is modelled as the server's generic 500 response. The database driver's exception text is not modelled. The page is taken in table order: the query has no ORDER BY, so PostgreSQL may return the caller's rows in any order, and which rows fall on a page is its choice too.
- TranscriptionsRouter.IntegerText: the `int` path parameter is taken to accept an optional sign followed by decimal digits. Other spellings the validation library may accept, such as surrounding whitespace, are left out.
- TranscriptionsRouter.ListVocabularies: the contract states membership both ways but not the order, because the query has no ORDER BY.

## Findings

| source | as written | input that shows it | evidently intended | confidence | as-written member | corrected member |
|---|---|---|---|---|---|---|
| web_app.py:298 | the worker gets the extension from `splitext`, with its leading '.', and compares it with bare names ('mp4', 'mov', …), so `extracting_audio` is never written and a video goes straight to transcription | upload "talk.mp4": the worker receives ".mp4", which is not in the list | a video upload first has its audio extracted (status extracting_audio at 20%), failing the job when extraction fails | high (not executed) | JobStatus.WorkerSequence | JobStatus.IsVideoExtension |
| backend/api/services/transcription_service.py:80-84 | `duration > 600` comes before `duration > 1800`, so the "medium" branch is dead | a 2000-second recording gets "small" | "medium" past 30 minutes, "small" past 10 minutes, as the branch comments say | high (not executed) | TranscriptionService.ChooseModelSize | TranscriptionService.ModelSize |
| backend/api/routers/transcriptions.py:233 | `GET /vocabulary` is declared after `GET /{transcription_id}` (line 103), whose path parameter matches any segment, so the request goes to `get_transcription` and fails its integer check | `GET /api/transcriptions/vocabulary` is answered with 422 | the caller's vocabularies are listed by `get_custom_vocabularies` | high (not executed) | TranscriptionsRouter.RouteGet | TranscriptionsRouter.CorrectedRouteGet |
