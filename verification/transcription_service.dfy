/** The back end's background processing
    (backend/api/services/transcription_service.py): `process_transcription`
    moves a record through processing to completed or failed and fills in the
    completion statistics; `process_real_time_audio` re-transcribes a growing
    stream with a bounded buffer. */
module TranscriptionService {
  import opened Common
  import opened Text
  import opened Models
  import WhisperService

  // ---------------------------------------------------------------------------
  // Model size
  // ---------------------------------------------------------------------------

  /** The model size for an audio duration in seconds, as written: the
      second test (more than 1800 seconds) sits behind the first (more than
      600), so "medium" is never chosen. */
  function ChooseModelSize(duration: real): (size: string)
    ensures duration > 600.0 ==> size == "small"
    ensures duration <= 600.0 ==> size == "base"
  {
    if duration > 600.0 then "small"
    else if duration > 1800.0 then "medium"
    else "base"
  }

  lemma MediumNeverChosen(duration: real)
    ensures ChooseModelSize(duration) != "medium"
  {
  }

  /** The evidently intended choice, as the comments on the tests say: "medium"
      past 30 minutes, "small" past 10 minutes, else "base". */
  function ModelSize(duration: real): (size: string)
    ensures size == "medium" <==> duration > 1800.0
    ensures size == "small" <==> 600.0 < duration <= 1800.0
    ensures size == "base" <==> duration <= 600.0
  {
    if duration > 1800.0 then "medium"
    else if duration > 600.0 then "small"
    else "base"
  }

  /** The two choices agree up to half an hour and differ on every longer
      recording, where the source picks "small" instead of "medium". */
  lemma ModelSizeDiffersAfterHalfHour(duration: real)
    ensures duration <= 1800.0 ==> ModelSize(duration) == ChooseModelSize(duration)
    ensures duration > 1800.0 ==> ModelSize(duration) == "medium" && ChooseModelSize(duration) == "small"
  {
  }

  // ---------------------------------------------------------------------------
  // process_transcription
  // ---------------------------------------------------------------------------

  const MissingUserError: string := "'NoneType' object has no attribute 'total_transcription_seconds'"

  /** Speakers counted on completion: distinct ids, or 0 for no segments. */
  function SpeakerCount(segments: seq<WhisperService.Segment>): (n: nat)
    ensures n == 0 <==> |segments| == 0
    ensures n <= |segments|
  {
    if |segments| == 0 then 0
    else
      var ids := WhisperService.SpeakerSet(segments);
      assert segments[0].speakerId in ids;
      CountBound(segments);
      |ids|
  }

  lemma {:induction false} CountBound(segments: seq<WhisperService.Segment>)
    ensures |WhisperService.SpeakerSet(segments)| <= |segments|
  {
    if |segments| > 0 {
      var init := segments[..|segments| - 1];
      CountBound(init);
      assert WhisperService.SpeakerSet(segments)
        == WhisperService.SpeakerSet(init) + {segments[|segments| - 1].speakerId} by {
        forall x | x in WhisperService.SpeakerSet(segments)
          ensures x in WhisperService.SpeakerSet(init) + {segments[|segments| - 1].speakerId}
        {
          var i :| 0 <= i < |segments| && segments[i].speakerId == x;
          if i < |segments| - 1 { assert init[i] == segments[i]; }
        }
      }
    }
  }

  /** The record as completed from a transcription result. */
  function Completed(rec: Transcription, t: WhisperService.Transcription, mongoId: string)
    : (r: Transcription)
    ensures r.status == "completed" && r.mongoDocumentId == Some(mongoId)
    ensures r.wordCount == |Words(t.text)|
    ensures r.hasSpeakerDiarization <==> |t.segments| > 0
    ensures r.speakerCount == SpeakerCount(t.segments)
    ensures r.(status := rec.status, mongoDocumentId := rec.mongoDocumentId, wordCount := rec.wordCount,
               hasSpeakerDiarization := rec.hasSpeakerDiarization, speakerCount := rec.speakerCount) == rec
  {
    rec.(status := "completed", mongoDocumentId := Some(mongoId), wordCount := |Words(t.text)|,
         hasSpeakerDiarization := |t.segments| > 0, speakerCount := SpeakerCount(t.segments))
  }

  /** The database and the users whose usage counters it keeps. */
  datatype State = State(db: Table, users: map<nat, User>)

  /** The `terms` text of the custom vocabulary, when one was requested and
      found: none, a JSON object (its keys are the terms), text that is not
      JSON (reported and ignored), or JSON of another type, named as Python
      names it ("list", "str", "int", …), on which taking the keys raises. */
  datatype Vocabulary = NoVocabulary | JsonObject | NotJson | OtherJson(pythonType: string)

  /** The message of the error raised by taking the keys of a JSON value
      that is not an object; the outer handler stores it unprefixed. */
  function NoKeysError(pythonType: string): string {
    "'" + pythonType + "' object has no attribute 'keys'"
  }

  /** `process_transcription(id, …)` with the model size for a duration
      chosen by `sizeFor`. `load` is the outcome of reading the audio (its
      duration in seconds or the error), `engine` the recogniser, `mongoId`
      the id the result document receives. */
  function ProcessWith(s: State, id: nat, load: Result<real, string>, vocabulary: Vocabulary,
                       engine: WhisperService.Engine, mongoId: string, sizeFor: real -> string)
    : (r: State)
    ensures FindById(s.db, id).None? ==> r == s
    ensures |r.db| == |s.db|
    ensures FindById(s.db, id).Some? ==>
      var k := FindById(s.db, id).value;
      && (forall j :: 0 <= j < |s.db| && j != k ==> r.db[j] == s.db[j])
      && r.db[k].status in {"completed", "failed"}
      && r.db[k].id == id && r.db[k].userId == s.db[k].userId
  {
    match FindById(s.db, id)
    case None => s
    case Some(k) =>
      var rec := s.db[k].(status := "processing");
      match load
      case Failure(e) =>
        State(s.db[k := rec.(status := "failed", errorMessage := Some("Failed to load audio file: " + e))], s.users)
      case Success(duration) =>
        var rec := rec.(durationSeconds := duration);
        if vocabulary.OtherJson? then
          State(s.db[k := rec.(status := "failed", errorMessage := Some(NoKeysError(vocabulary.pythonType)))], s.users)
        else
          match WhisperService.TranscribeWithDiarization(engine, Some(rec.languageCode), sizeFor(duration), None)
          case Failure(e) =>
            State(s.db[k := rec.(status := "failed", errorMessage := Some("Transcription failed: " + e))], s.users)
          case Success(t) =>
            var done := Completed(rec, t, mongoId);
            if rec.userId in s.users then
              var u := s.users[rec.userId];
              var u' := u.(totalSeconds := u.totalSeconds + duration, totalCount := u.totalCount + 1);
              State(s.db[k := done], s.users[rec.userId := u'])
            else
              State(s.db[k := done.(status := "failed", errorMessage := Some(MissingUserError))], s.users)
  }

  /** `process_transcription` as written, with the size choice that never
      picks "medium": an unknown id changes nothing, the record ends
      completed or failed, and no other record changes. */
  function ProcessTranscription(s: State, id: nat, load: Result<real, string>, vocabulary: Vocabulary,
                                engine: WhisperService.Engine, mongoId: string)
    : (r: State)
    ensures FindById(s.db, id).None? ==> r == s
    ensures |r.db| == |s.db|
    ensures FindById(s.db, id).Some? ==>
      var k := FindById(s.db, id).value;
      && (forall j :: 0 <= j < |s.db| && j != k ==> r.db[j] == s.db[j])
      && r.db[k].status in {"completed", "failed"}
      && r.db[k].id == id && r.db[k].userId == s.db[k].userId
  {
    ProcessWith(s, id, load, vocabulary, engine, mongoId, ChooseModelSize)
  }

  /** `process_transcription` with the evidently intended size choice. */
  function CorrectedProcessTranscription(s: State, id: nat, load: Result<real, string>, vocabulary: Vocabulary,
                                         engine: WhisperService.Engine, mongoId: string)
    : (r: State)
    ensures FindById(s.db, id).None? ==> r == s
    ensures |r.db| == |s.db|
    ensures FindById(s.db, id).Some? ==>
      var k := FindById(s.db, id).value;
      && (forall j :: 0 <= j < |s.db| && j != k ==> r.db[j] == s.db[j])
      && r.db[k].status in {"completed", "failed"}
      && r.db[k].id == id && r.db[k].userId == s.db[k].userId
  {
    ProcessWith(s, id, load, vocabulary, engine, mongoId, ModelSize)
  }

  /** The outcome of one run as written, case by case: a load failure marks
      the record failed with a prefixed message; a vocabulary whose terms
      are JSON but not an object marks it failed with the unprefixed
      attribute error; a transcription failure (the engine asked for
      "small" past ten minutes, else "base") marks it failed with a prefixed
      message; all of these leave the usage counters alone. Success
      completes the record, records the statistics and charges the duration
      to its owner; a missing owner fails it. */
  lemma ProcessOutcome(s: State, id: nat, load: Result<real, string>, vocabulary: Vocabulary,
                       engine: WhisperService.Engine, mongoId: string)
    requires FindById(s.db, id).Some?
    ensures var k := FindById(s.db, id).value;
      var rec := s.db[k];
      var r := ProcessTranscription(s, id, load, vocabulary, engine, mongoId);
      && (load.Failure? ==>
            r.db[k].status == "failed" && r.db[k].errorMessage == Some("Failed to load audio file: " + load.error)
            && r.users == s.users)
      && (load.Success? ==> r.db[k].durationSeconds == load.value)
      && (load.Success? && vocabulary.OtherJson? ==>
            r.db[k].status == "failed" && r.db[k].errorMessage == Some(NoKeysError(vocabulary.pythonType))
            && r.users == s.users)
      && (load.Success? && !vocabulary.OtherJson? ==>
            var t := WhisperService.TranscribeWithDiarization(engine, Some(rec.languageCode),
                                                             if load.value > 600.0 then "small" else "base", None);
            && (t.Failure? ==>
                  r.db[k].status == "failed" && r.db[k].errorMessage == Some("Transcription failed: " + t.error)
                  && r.users == s.users)
            && (t.Success? && rec.userId in s.users ==>
                  && r.db[k].status == "completed"
                  && r.db[k].wordCount == |Words(t.value.text)|
                  && (r.db[k].hasSpeakerDiarization <==> |t.value.segments| > 0)
                  && r.db[k].speakerCount == SpeakerCount(t.value.segments)
                  && r.users.Keys == s.users.Keys
                  && r.users[rec.userId].totalCount == s.users[rec.userId].totalCount + 1
                  && r.users[rec.userId].totalSeconds == s.users[rec.userId].totalSeconds + load.value
                  && (forall u :: u in s.users && u != rec.userId ==> r.users[u] == s.users[u]))
            && (t.Success? && rec.userId !in s.users ==>
                  r.db[k].status == "failed" && r.db[k].errorMessage == Some(MissingUserError)
                  && r.users == s.users))
  {
  }

  /** The corrected run does exactly what the run as written does up to half
      an hour of audio; past that it asks the engine for "medium", so its
      record completes exactly when a "medium" transcription succeeds and
      the owner exists. */
  lemma CorrectedProcessOutcome(s: State, id: nat, load: Result<real, string>, vocabulary: Vocabulary,
                                engine: WhisperService.Engine, mongoId: string)
    ensures load.Failure? || load.value <= 1800.0 ==>
      CorrectedProcessTranscription(s, id, load, vocabulary, engine, mongoId)
        == ProcessTranscription(s, id, load, vocabulary, engine, mongoId)
    ensures FindById(s.db, id).Some? && load.Success? && load.value > 1800.0 && !vocabulary.OtherJson? ==>
      var k := FindById(s.db, id).value;
      var r := CorrectedProcessTranscription(s, id, load, vocabulary, engine, mongoId);
      (r.db[k].status == "completed" <==>
         WhisperService.TranscribeWithDiarization(engine, Some(s.db[k].languageCode), "medium", None).Success?
         && s.db[k].userId in s.users)
  {
    if load.Success? {
      ModelSizeDiffersAfterHalfHour(load.value);
    }
  }

  /** With the default two speakers, a completed record counts
      `min(segments, 2)` speakers. */
  lemma CompletedSpeakerCount(t: WhisperService.Transcription)
    ensures WhisperService.Diarize(t, None).Success?
    ensures SpeakerCount(WhisperService.Diarize(t, None).value.segments)
      == (if |t.segments| < 2 then |t.segments| else 2)
  {
    WhisperService.DiarizedSpeakers(t, 2);
    assert WhisperService.Diarize(t, None) == WhisperService.Diarize(t, Some(2));
  }

  /** The word count of a text made of space-separated words is the number
      of words. */
  lemma WordCountOfJoin(ws: seq<string>)
    requires forall i :: 0 <= i < |ws| ==> |ws[i]| > 0 && NoSpace(ws[i])
    ensures |Words(Join(" ", ws))| == |ws|
  {
    WordsOfJoin(ws);
  }

  // ---------------------------------------------------------------------------
  // process_real_time_audio
  // ---------------------------------------------------------------------------

  const BufferThreshold: nat := 20
  const BufferKeep: nat := 5

  /** A message sent back over the socket. */
  datatype Message = Partial(text: string) | Final(text: string) | Error(message: string)

  /** The received audio in order. */
  function Flatten(packets: seq<seq<bv8>>): seq<bv8> {
    if |packets| == 0 then [] else Flatten(packets[..|packets| - 1]) + packets[|packets| - 1]
  }

  /** The number of packets read before the stream ends: the first empty
      packet, or the end of the input (a receive error). */
  function StreamLength(packets: seq<seq<bv8>>): (n: nat)
    ensures n <= |packets|
    ensures forall j :: 0 <= j < n ==> packets[j] != []
    ensures n < |packets| ==> packets[n] == []
  {
    if |packets| == 0 || packets[0] == [] then 0
    else
      var n := StreamLength(packets[1..]) + 1;
      assert forall j :: 1 <= j < n ==> packets[j] == packets[1..][j - 1];
      n
  }

  function Reply(outcome: Result<string, string>, final: bool): Message {
    match outcome
    case Success(text) => if final then Final(text) else Partial(text)
    case Failure(e) => Error(e)
  }

  /** `process_real_time_audio`: every time the buffer holds 20 packets the
      whole audio received so far is transcribed and the buffer is cut back
      to its last 5 packets; at the end of the stream, non-empty audio is
      transcribed once more as the final result. `transcribe` maps audio to
      its text or an error. Returns the messages sent, the audio received
      and the largest buffer held. */
  method RealTime(packets: seq<seq<bv8>>, transcribe: seq<bv8> -> Result<string, string>)
    returns (messages: seq<Message>, audio: seq<bv8>, peak: nat)
    ensures audio == Flatten(packets[..StreamLength(packets)])
    ensures peak <= BufferThreshold
    ensures var n := StreamLength(packets);
      var c := |messages| - (if audio == [] then 0 else 1);
      && 0 <= c
      && n - 15 * c < BufferThreshold
      && (c > 0 ==> n - 15 * c >= BufferKeep)
      && (forall y :: 0 <= y < c ==>
            messages[y] == Reply(transcribe(Flatten(packets[..BufferThreshold + 15 * y])), false))
      && (audio != [] ==> messages[|messages| - 1] == Reply(transcribe(audio), true))
  {
    var n := StreamLength(packets);
    var buffer: seq<seq<bv8>> := [];
    audio := [];
    messages := [];
    peak := 0;
    var i := 0;
    while i < n
      invariant 0 <= i <= n
      invariant audio == Flatten(packets[..i])
      invariant |buffer| < BufferThreshold && peak <= BufferThreshold
      invariant |buffer| == i - 15 * |messages|
      invariant |messages| > 0 ==> |buffer| >= BufferKeep
      invariant forall y :: 0 <= y < |messages| ==>
        BufferThreshold + 15 * y <= i
        && messages[y] == Reply(transcribe(Flatten(packets[..BufferThreshold + 15 * y])), false)
    {
      assert packets[..i + 1][..i] == packets[..i];
      audio := audio + packets[i];
      buffer := buffer + [packets[i]];
      if |buffer| > peak {
        peak := |buffer|;
      }
      if |buffer| >= BufferThreshold {
        messages := messages + [Reply(transcribe(audio), false)];
        buffer := buffer[|buffer| - BufferKeep..];
      }
      i := i + 1;
    }
    if audio != [] {
      messages := messages + [Reply(transcribe(audio), true)];
    }
  }

  /** The audio only grows: each intermediate transcription sees a prefix of
      the audio the next one sees. */
  lemma {:induction false} FlattenPrefix(packets: seq<seq<bv8>>, a: nat, b: nat)
    requires a <= b <= |packets|
    ensures Flatten(packets[..a]) <= Flatten(packets[..b])
    decreases b - a
  {
    if a < b {
      FlattenPrefix(packets, a, b - 1);
      assert packets[..b][..b - 1] == packets[..b - 1];
    }
  }
}
