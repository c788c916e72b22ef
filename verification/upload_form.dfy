/** The upload form (frontend/src/components/UploadTranscription.tsx): the
    checks on the chosen file, the title derived from its name, and the
    guards in front of the upload. The component's state is a value; each
    handler maps it to the next state. */
module UploadForm {
  import opened Common
  import opened Text

  const AllowedTypes: seq<string> :=
    ["audio/mp3", "audio/wav", "audio/mpeg", "audio/ogg", "audio/m4a", "audio/flac"]

  /** 100 MiB. */
  const MaxBytes: nat := 100 * 1024 * 1024

  const InvalidType: string := "Invalid file type. Please upload an audio file (MP3, WAV, M4A, FLAC, OGG)."
  const TooLarge: string := "File is too large. Maximum size is 100MB."
  const NoFileSelected: string := "Please select an audio file to upload."

  /** What the browser reports of a chosen file. */
  datatype FileInfo = FileInfo(name: string, mimeType: string, size: nat)

  datatype State = State(title: string, language: string, isPublic: bool,
                         selected: Option<FileInfo>, fileError: string)

  function Initial(): (s: State)
    ensures s.title == "" && s.selected.None? && s.fileError == "" && s.language == "en-US" && !s.isPublic
  {
    State("", "en-US", false, None, "")
  }

  // ---------------------------------------------------------------------------
  // Title from the file name
  // ---------------------------------------------------------------------------

  /** What `[^/.]+$` matches: a non-empty tail free of '.' and '/'. */
  predicate ExtensionLike(e: string) {
    |e| > 0 && '.' !in e && '/' !in e
  }

  /** The name ends in a '.' followed by an extension-like tail. */
  predicate HasExtension(name: string) {
    exists i :: 0 <= i < |name| && name[i] == '.' && ExtensionLike(name[i + 1..])
  }

  /** `name.replace(/\.[^/.]+$/, '')`: the name without its final extension.
      Only the last '.' can start a match, since the tail may hold no '.'. */
  function StripExtension(name: string): (r: string)
    ensures HasExtension(name) ==>
      |r| < |name| && r == name[..|r|] && name[|r|] == '.' && ExtensionLike(name[|r| + 1..])
    ensures !HasExtension(name) ==> r == name
  {
    match LastIndexOf(name, '.')
    case None => name
    case Some(i) =>
      if ExtensionLike(name[i + 1..]) then name[..i]
      else
        assert !HasExtension(name) by {
          forall j | 0 <= j < |name| && name[j] == '.'
            ensures !ExtensionLike(name[j + 1..])
          {
            if j < i {
              assert name[j + 1..][i - j - 1] == '.';
            }
          }
        }
        name
  }

  /** Stripping a name built from a stem and an extension gives the stem back. */
  lemma StripExtensionRoundTrip(stem: string, ext: string)
    requires ExtensionLike(ext)
    ensures StripExtension(stem + "." + ext) == stem
  {
    var name := stem + "." + ext;
    assert name[|stem|] == '.' && name[|stem| + 1..] == ext;
    assert forall k :: |stem| < k < |name| ==> name[k] == ext[k - |stem| - 1];
    assert LastIndexOf(name, '.') == Some(|stem|);
  }

  // ---------------------------------------------------------------------------
  // Handlers
  // ---------------------------------------------------------------------------

  /** The checks `handleFileChange` applies, in order: type, then size. */
  function FileError(f: FileInfo): (r: Option<string>)
    ensures r.None? <==> f.mimeType in AllowedTypes && f.size <= MaxBytes
    ensures f.mimeType !in AllowedTypes ==> r == Some(InvalidType)
    ensures f.mimeType in AllowedTypes && f.size > MaxBytes ==> r == Some(TooLarge)
  {
    if f.mimeType !in AllowedTypes then Some(InvalidType)
    else if f.size > MaxBytes then Some(TooLarge)
    else None
  }

  /** `handleFileChange` for the chosen files (only the first is looked at). */
  function FileChange(s: State, files: seq<FileInfo>): (r: State)
    ensures |files| == 0 ==> r == s
    ensures |files| > 0 && FileError(files[0]).Some? ==>
      r == s.(selected := None, fileError := FileError(files[0]).value)
    ensures |files| > 0 && FileError(files[0]).None? ==>
      && r.selected == Some(files[0]) && r.fileError == ""
      && r.title == (if s.title == "" then StripExtension(files[0].name) else s.title)
      && r.language == s.language && r.isPublic == s.isPublic
  {
    if |files| == 0 then s
    else
      var f := files[0];
      match FileError(f)
      case Some(e) => s.(selected := None, fileError := e)
      case None =>
        var title := if s.title == "" then StripExtension(f.name) else s.title;
        s.(selected := Some(f), fileError := "", title := title)
  }

  /** `handleClearFile`. */
  function ClearFile(s: State): (r: State)
    ensures r.selected.None? && r.fileError == ""
    ensures r.title == s.title && r.language == s.language && r.isPublic == s.isPublic
  {
    s.(selected := None, fileError := "")
  }

  /** What the upload thunk is given. */
  datatype UploadRequest = UploadRequest(file: FileInfo, title: string, languageCode: string, isPublic: bool)

  datatype Submission = Submission(state: State, request: Option<UploadRequest>)

  /** `handleSubmit`: no file is an error, an empty title silently does nothing. */
  function Submit(s: State): (r: Submission)
    ensures r.request.Some? <==> s.selected.Some? && s.title != ""
    ensures r.request.Some? ==>
      r.request.value == UploadRequest(s.selected.value, s.title, s.language, s.isPublic) && r.state == s
    ensures s.selected.None? ==> r.state == s.(fileError := NoFileSelected)
    ensures s.selected.Some? && s.title == "" ==> r.state == s
  {
    match s.selected
    case None => Submission(s.(fileError := NoFileSelected), None)
    case Some(f) =>
      if s.title == "" then Submission(s, None)
      else Submission(s, Some(UploadRequest(f, s.title, s.language, s.isPublic)))
  }

  /** The submit button's `disabled`. */
  predicate SubmitDisabled(isLoading: bool, s: State) {
    isLoading || s.selected.None? || s.title == ""
  }

  /** An enabled button always leads to an upload, and a disabled one is
      disabled for a reason the handler would also refuse on, or because
      an upload is running. */
  lemma SubmitEnabledIff(isLoading: bool, s: State)
    ensures !SubmitDisabled(isLoading, s) <==> !isLoading && Submit(s).request.Some?
  {
  }

  /** Choosing an accepted file on a fresh form fills the title with the
      file name less its extension, which enables the button. */
  lemma FreshSelectionEnablesSubmit(stem: string, ext: string, mimeType: string, size: nat)
    requires ExtensionLike(ext) && stem != ""
    requires mimeType in AllowedTypes && size <= MaxBytes
    ensures var s := FileChange(Initial(), [FileInfo(stem + "." + ext, mimeType, size)]);
      s.title == stem && !SubmitDisabled(false, s)
  {
    StripExtensionRoundTrip(stem, ext);
  }

  /** A file of exactly 100 MiB is accepted; one byte more is refused. */
  lemma SizeLimitBoundary(f: FileInfo)
    requires f.mimeType in AllowedTypes
    ensures f.size == MaxBytes ==> FileError(f).None?
    ensures f.size == MaxBytes + 1 ==> FileError(f) == Some(TooLarge)
  {
  }
}
