/** The recording form (frontend/src/components/RecordTranscription.tsx):
    the elapsed-time display, the recorder and player flags, and the guards
    in front of the upload. The microphone, the media recorder and the
    one-second timer are events applied to the component's state. */
module RecordForm {
  import opened Common
  import opened Text
  import UploadForm
  import TranscriptionsRouter

  const MicrophoneError: string := "Could not access microphone. Please check your browser permissions."
  const NothingRecorded: string := "Please record audio before submitting."

  // ---------------------------------------------------------------------------
  // Elapsed time
  // ---------------------------------------------------------------------------

  /** `n.toString().padStart(2, '0')` for a number below 100. */
  function TwoDigits(n: nat): (r: string)
    requires n < 100
    ensures |r| == 2 && AllDigits(r) && ParseDigits(r) == n
  {
    var d := NatToString(n);
    ParseNatToString(n);
    if n < 10 then
      assert d == [DigitChar(n)];
      ParseLeadingZero(d);
      assert PadStart(d, 2, '0') == "0" + d;
      PadStart(d, 2, '0')
    else
      assert d == NatToString(n / 10) + [DigitChar(n % 10)];
      assert NatToString(n / 10) == [DigitChar(n / 10)];
      PadStart(d, 2, '0')
  }

  /** `formatTime`: minutes, a colon, and the seconds as two digits. */
  function FormatTime(seconds: nat): (r: string)
    ensures |r| >= 4 && r[|r| - 3] == ':'
    ensures AllDigits(r[..|r| - 3]) && AllDigits(r[|r| - 2..])
  {
    var m := NatToString(seconds / 60);
    var ss := TwoDigits(seconds % 60);
    var r := m + ":" + ss;
    assert r[..|r| - 3] == m && r[|r| - 2..] == ss;
    r
  }

  /** Reads an `m:ss` display back into seconds. */
  function ParseTime(t: string): Option<nat> {
    match IndexOf(t, ":")
    case None => None
    case Some(i) =>
      var m := t[..i];
      var ss := t[i + 1..];
      if |m| > 0 && |ss| == 2 && AllDigits(m) && AllDigits(ss) && ParseDigits(ss) < 60
      then Some(60 * ParseDigits(m) + ParseDigits(ss))
      else None
  }

  /** A number, a colon and anything after: the colon is the first one. */
  lemma ColonAfterNumber(m: string, ss: string)
    requires AllDigits(m)
    ensures IndexOf(m + ":" + ss, ":") == Some(|m|)
  {
    var t := m + ":" + ss;
    assert OccursAt(t, ":", |m|) by { assert t[|m|..|m| + 1] == ":"; }
    forall j | 0 <= j < |m|
      ensures !OccursAt(t, ":", j)
    {
      assert t[j..j + 1][0] == m[j];
    }
  }

  /** The display can be read back into the time it shows. */
  lemma FormatTimeRoundTrip(seconds: nat)
    ensures ParseTime(FormatTime(seconds)) == Some(seconds)
  {
    var m := NatToString(seconds / 60);
    var ss := TwoDigits(seconds % 60);
    var t := m + ":" + ss;
    assert FormatTime(seconds) == t;
    ColonAfterNumber(m, ss);
    assert t[..|m|] == m && t[|m| + 1..] == ss;
    ParseNatToString(seconds / 60);
  }

  // ---------------------------------------------------------------------------
  // Recorder and player
  // ---------------------------------------------------------------------------

  /** The component's state. `hasRecorder` is whether a media recorder has
      been created, `timerRunning` whether the one-second interval is set,
      and `titleAtStart` the title captured by the recorder's stop handler
      when recording began. */
  datatype State = State(title: string, language: string, isPublic: bool,
                         isRecording: bool, recordingTime: nat, audio: Option<seq<bv8>>,
                         isPlaying: bool, error: string,
                         hasRecorder: bool, timerRunning: bool, titleAtStart: string)

  function Initial(): (s: State)
    ensures !s.isRecording && s.recordingTime == 0 && s.audio.None? && !s.isPlaying && s.error == ""
    ensures !s.hasRecorder && !s.timerRunning && s.title == ""
  {
    State("", "en-US", false, false, 0, None, false, "", false, false, "")
  }

  /** `startRecording`; `microphone` is whether access was granted. */
  function StartRecording(s: State, microphone: bool): (r: State)
    ensures microphone ==>
      && r.isRecording && r.recordingTime == 0 && r.timerRunning && r.hasRecorder && r.error == ""
      && r.titleAtStart == s.title && r.audio == s.audio && r.title == s.title
    ensures !microphone ==> r == s.(error := MicrophoneError)
  {
    if microphone then
      s.(hasRecorder := true, isRecording := true, recordingTime := 0, timerRunning := true,
         error := "", titleAtStart := s.title)
    else s.(error := MicrophoneError)
  }

  /** One firing of the one-second interval. */
  function Tick(s: State): (r: State)
    ensures s.timerRunning ==> r == s.(recordingTime := s.recordingTime + 1)
    ensures !s.timerRunning ==> r == s
  {
    if s.timerRunning then s.(recordingTime := s.recordingTime + 1) else s
  }

  function Ticks(s: State, n: nat): State
    decreases n
  {
    if n == 0 then s else Ticks(Tick(s), n - 1)
  }

  /** While the timer runs, `n` ticks add exactly `n` seconds and change
      nothing else. */
  lemma {:induction false} TicksCount(s: State, n: nat)
    requires s.timerRunning
    ensures Ticks(s, n) == s.(recordingTime := s.recordingTime + n)
    decreases n
  {
    if n > 0 {
      TicksCount(Tick(s), n - 1);
    }
  }

  /** `stopRecording`: only a running recorder is stopped. */
  function StopRecording(s: State): (r: State)
    ensures s.hasRecorder && s.isRecording ==>
      r == s.(isRecording := false, timerRunning := false)
    ensures !(s.hasRecorder && s.isRecording) ==> r == s
  {
    if s.hasRecorder && s.isRecording then s.(isRecording := false, timerRunning := false) else s
  }

  /** The recorder's stop handler: keeps the audio, and titles the recording
      "Recording <date> <time>" when the title was empty when recording
      began. `stamp` is the rendered date and time. */
  function RecorderStopped(s: State, audio: seq<bv8>, stamp: string): (r: State)
    ensures r.audio == Some(audio)
    ensures r.title == (if s.titleAtStart == "" then "Recording " + stamp else s.title)
    ensures r.(audio := s.audio, title := s.title) == s
  {
    s.(audio := Some(audio), title := if s.titleAtStart == "" then "Recording " + stamp else s.title)
  }

  /** The handler reads the title captured at the start and ignores the
      current one: any other title present at stop time is replaced. The
      form never reaches that state, since the title field is disabled while
      recording (`TitleEditsIgnoredWhileRecording`). */
  lemma TypedTitleReplaced(s: State, audio: seq<bv8>, stamp: string)
    requires s.titleAtStart == "" && s.title != "" && !StartsWith(s.title, "Recording ")
    ensures RecorderStopped(s, audio, stamp).title != s.title
  {
    var t := RecorderStopped(s, audio, stamp).title;
    assert t[..|"Recording "|] == "Recording ";
  }

  /** Typing into the title field, which is disabled while an upload is
      running or a recording is in progress. */
  function EditTitle(s: State, isLoading: bool, text: string): (r: State)
    ensures !isLoading && !s.isRecording ==> r.title == text
    ensures isLoading || s.isRecording ==> r == s
    ensures r.(title := s.title) == s
  {
    if isLoading || s.isRecording then s else s.(title := text)
  }

  function EditTitles(s: State, isLoading: bool, edits: seq<string>): State
    decreases |edits|
  {
    if |edits| == 0 then s else EditTitles(EditTitle(s, isLoading, edits[0]), isLoading, edits[1..])
  }

  /** However much is typed while recording, the title stays the one
      captured at the start, so the stop handler titles an untitled
      recording "Recording …" and keeps a typed one. */
  lemma {:induction false} TitleEditsIgnoredWhileRecording(s: State, isLoading: bool, edits: seq<string>)
    requires s.isRecording
    ensures EditTitles(s, isLoading, edits) == s
    decreases |edits|
  {
    if |edits| > 0 {
      TitleEditsIgnoredWhileRecording(EditTitle(s, isLoading, edits[0]), isLoading, edits[1..]);
    }
  }

  /** `playRecording`. */
  function Play(s: State): (r: State)
    ensures r.isPlaying <==> s.audio.Some? || s.isPlaying
    ensures r.(isPlaying := s.isPlaying) == s
  {
    if s.audio.Some? then s.(isPlaying := true) else s
  }

  /** `pausePlayback`, and the player's end-of-audio handler. */
  function Pause(s: State): (r: State)
    ensures !r.isPlaying && r.(isPlaying := s.isPlaying) == s
  {
    s.(isPlaying := false)
  }

  /** `deleteRecording`. */
  function DeleteRecording(s: State): (r: State)
    ensures r.audio.None? && !r.isPlaying
    ensures r.(audio := s.audio, isPlaying := s.isPlaying) == s
  {
    s.(audio := None, isPlaying := false)
  }

  /** A full recording: start, `n` seconds, stop, then the stop handler.
      The display shows `n` seconds, and with no upload running the submit
      button is enabled, the title being the one typed before or the
      generated one. */
  lemma RecordingRun(s: State, n: nat, audio: seq<bv8>, stamp: string)
    ensures var r := RecorderStopped(StopRecording(Ticks(StartRecording(s, true), n)), audio, stamp);
      && r.recordingTime == n && !r.isRecording && !r.timerRunning
      && r.audio == Some(audio)
      && r.title == (if s.title == "" then "Recording " + stamp else s.title)
      && !SubmitDisabled(false, r)
  {
    TicksCount(StartRecording(s, true), n);
  }

  /** Typing during the recording changes nothing: the recording ends
      titled as if nothing had been typed. */
  lemma RecordingRunWithEdits(s: State, n: nat, isLoading: bool, edits: seq<string>,
                              audio: seq<bv8>, stamp: string)
    ensures var during := EditTitles(Ticks(StartRecording(s, true), n), isLoading, edits);
      var r := RecorderStopped(StopRecording(during), audio, stamp);
      && r.title == (if s.title == "" then "Recording " + stamp else s.title)
      && r.recordingTime == n && r.audio == Some(audio)
  {
    TicksCount(StartRecording(s, true), n);
    TitleEditsIgnoredWhileRecording(Ticks(StartRecording(s, true), n), isLoading, edits);
  }

  // ---------------------------------------------------------------------------
  // Submission
  // ---------------------------------------------------------------------------

  /** The file the upload thunk is given: the recording named after the title. */
  datatype RecordedUpload = RecordedUpload(fileName: string, mimeType: string, content: seq<bv8>,
                                           title: string, languageCode: string, isPublic: bool)

  datatype Submission = Submission(state: State, request: Option<RecordedUpload>)

  /** `handleSubmit`. */
  function Submit(s: State): (r: Submission)
    ensures r.request.Some? <==> s.audio.Some? && s.title != ""
    ensures r.request.Some? ==>
      r.state == s
      && r.request.value == RecordedUpload(s.title + ".wav", "audio/wav", s.audio.value, s.title, s.language, s.isPublic)
    ensures s.audio.None? ==> r.state == s.(error := NothingRecorded)
    ensures s.audio.Some? && s.title == "" ==> r.state == s
  {
    match s.audio
    case None => Submission(s.(error := NothingRecorded), None)
    case Some(a) =>
      if s.title == "" then Submission(s, None)
      else Submission(s, Some(RecordedUpload(s.title + ".wav", "audio/wav", a, s.title, s.language, s.isPublic)))
  }

  /** The submit button's `disabled`. */
  predicate SubmitDisabled(isLoading: bool, s: State) {
    isLoading || s.isRecording || s.audio.None? || s.title == ""
  }

  lemma SubmitEnabledIff(isLoading: bool, s: State)
    ensures !SubmitDisabled(isLoading, s) <==> !isLoading && !s.isRecording && Submit(s).request.Some?
  {
  }

  /** The uploaded file's name carries the "wav" extension, which the upload
      endpoint accepts, and the title is what the name shows without it. */
  lemma RecordedNameAccepted(title: string)
    ensures var name := title + ".wav";
      && TranscriptionsRouter.FileExtension(name) == "wav"
      && "wav" in TranscriptionsRouter.AllowedExtensions
      && UploadForm.StripExtension(name) == title
  {
    assert title + ".wav" == title + "." + "wav";
    TranscriptionsRouter.ExtensionOfDottedName(title, "wav");
    assert Lower("wav") == "wav";
    UploadForm.StripExtensionRoundTrip(title, "wav");
  }
}
