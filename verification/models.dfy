/** The relational records of the FastAPI back end
    (backend/api/models/transcription.py), reduced to the fields the services
    and routers read or write. Timestamps and file paths are not modelled. */
module Models {
  import opened Common

  datatype Transcription = Transcription(
    id: nat,
    userId: nat,
    title: string,
    languageCode: string,
    status: string,
    originalFilename: string,
    fileSizeBytes: nat,
    durationSeconds: real,
    fileFormat: string,
    errorMessage: Option<string>,
    mongoDocumentId: Option<string>,
    wordCount: nat,
    hasSpeakerDiarization: bool,
    speakerCount: nat,
    isPublic: bool,
    customVocabularyId: Option<nat>)

  /** The usage counters of a user account. */
  datatype User = User(id: nat, totalSeconds: real, totalCount: nat)

  datatype Vocabulary = Vocabulary(userId: nat, name: string, description: Option<string>,
                                   languageCode: string, terms: string)

  /** The transcriptions table in insertion order. */
  type Table = seq<Transcription>

  /** The position of the first row with this id, if any. */
  function FindById(db: Table, id: nat): (r: Option<nat>)
    ensures r.Some? ==> r.value < |db| && db[r.value].id == id
    ensures r.Some? ==> forall j :: 0 <= j < r.value ==> db[j].id != id
    ensures r.None? ==> forall j :: 0 <= j < |db| ==> db[j].id != id
  {
    if |db| == 0 then None
    else if db[0].id == id then Some(0)
    else
      match FindById(db[1..], id)
      case None => None
      case Some(k) => Some(k + 1)
  }
}
