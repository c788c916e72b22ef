/** The transcription endpoints of the FastAPI back end
    (backend/api/routers/transcriptions.py): upload validation and the
    initial record, owner-scoped listing, lookup and deletion, the ordered
    checks of the result endpoint, and vocabulary creation. Files on disk
    and the document store's ObjectId parsing are not modelled; the result
    documents are a map from document id. */
module TranscriptionsRouter {
  import opened Common
  import opened Text
  import opened Models
  import WhisperService

  /** `settings.ALLOWED_EXTENSIONS` (backend/api/core/config.py). */
  const AllowedExtensions: seq<string> := ["mp3", "wav", "m4a", "flac", "ogg", "mp4"]

  const ExtensionRejected: string :=
    "File extension not allowed. Allowed extensions: mp3, wav, m4a, flac, ogg, mp4"
  const NotFound: string := "Transcription not found"
  const ResultNotFound: string := "Transcription result not found"
  const InvalidTerms: string := "Terms must be a valid JSON string"

  // ---------------------------------------------------------------------------
  // Upload
  // ---------------------------------------------------------------------------

  /** `filename.split(".")[-1].lower()`: the lower-cased text after the last
      '.', or the whole lower-cased name when there is none. */
  function FileExtension(filename: string): (ext: string)
    ensures '.' !in filename ==> ext == Lower(filename)
    ensures |ext| <= |filename|
  {
    match LastIndexOf(filename, '.')
    case None => Lower(filename)
    case Some(i) => Lower(filename[i + 1..])
  }

  /** Whatever precedes the last dot does not matter. */
  lemma ExtensionOfDottedName(stem: string, ext: string)
    requires '.' !in ext
    ensures FileExtension(stem + "." + ext) == Lower(ext)
  {
    var name := stem + "." + ext;
    assert name[|stem|] == '.';
    var i := LastIndexOf(name, '.').value;
    if i != |stem| {
      assert false;
    }
    assert name[|stem| + 1..] == ext;
  }

  /** `create_transcription`: the extension check, then a pending record
      with zero duration and the upload's size, appended to the table. */
  function CreateTranscription(db: Table, newId: nat, userId: nat, title: string,
                               languageCode: string, isPublic: bool, vocabularyId: Option<nat>,
                               filename: string, content: seq<bv8>)
    : (r: Result<(Table, Transcription), HttpError>)
    ensures r.Failure? <==> FileExtension(filename) !in AllowedExtensions
    ensures r.Failure? ==> r.error == HttpError(400, ExtensionRejected)
    ensures r.Success? ==>
      var rec := r.value.1;
      && r.value.0 == db + [rec]
      && rec.id == newId && rec.userId == userId && rec.title == title
      && rec.languageCode == languageCode && rec.originalFilename == filename
      && rec.status == "pending" && rec.durationSeconds == 0.0
      && rec.fileSizeBytes == |content| && rec.fileFormat == FileExtension(filename)
      && rec.errorMessage.None? && rec.mongoDocumentId.None?
      && rec.wordCount == 0 && !rec.hasSpeakerDiarization && rec.speakerCount == 0
      && rec.isPublic == isPublic && rec.customVocabularyId == vocabularyId
  {
    var ext := FileExtension(filename);
    if ext !in AllowedExtensions then Failure(HttpError(400, ExtensionRejected))
    else
      var rec := Transcription(newId, userId, title, languageCode, "pending", filename, |content|,
                               0.0, ext, None, None, 0, false, 0, isPublic, vocabularyId);
      Success((db + [rec], rec))
  }

  // ---------------------------------------------------------------------------
  // Owner-scoped access
  // ---------------------------------------------------------------------------

  predicate Owns(userId: nat, t: Transcription) {
    t.userId == userId
  }

  /** The caller's rows, in table order. */
  function Owned(db: Table, userId: nat): (r: Table)
    ensures |r| <= |db|
    ensures forall i :: 0 <= i < |r| ==> r[i] in db && r[i].userId == userId
    ensures forall i :: 0 <= i < |db| && db[i].userId == userId ==> db[i] in r
  {
    if |db| == 0 then []
    else (if db[0].userId == userId then [db[0]] else []) + Owned(db[1..], userId)
  }

  /** The response to a query the database rejects: the error escapes the
      handler and the server answers 500. */
  const ServerError: HttpError := HttpError(500, "Internal Server Error")

  /** `GET /`: the caller's rows after skipping `skip`, at most `limit`. The
      parameters are plain integers; PostgreSQL rejects a negative OFFSET or
      LIMIT, which fails the request. */
  function ListTranscriptions(db: Table, userId: nat, skip: int, limit: int): (r: Result<Table, HttpError>)
    ensures r.Failure? <==> skip < 0 || limit < 0
    ensures r.Failure? ==> r.error == ServerError
    ensures r.Success? ==> |r.value| <= limit
    ensures r.Success? ==> forall i :: 0 <= i < |r.value| ==> r.value[i].userId == userId
    ensures r.Success? ==> forall i :: 0 <= i < |r.value| ==>
      skip + i < |Owned(db, userId)| && r.value[i] == Owned(db, userId)[skip + i]
    ensures r.Success? ==> |r.value| == Min(limit, |Owned(db, userId)| - Min(skip, |Owned(db, userId)|))
  {
    if skip < 0 || limit < 0 then Failure(ServerError)
    else
      var owned := Owned(db, userId);
      var rest := if skip < |owned| then owned[skip..] else [];
      Success(Take(rest, limit))
  }

  function Min(a: int, b: int): int {
    if a <= b then a else b
  }

  /** The position of the first row with this id owned by the caller. */
  function FindOwned(db: Table, id: nat, userId: nat): (r: Option<nat>)
    ensures r.Some? ==> r.value < |db| && db[r.value].id == id && db[r.value].userId == userId
    ensures r.None? <==> forall j :: 0 <= j < |db| ==> !(db[j].id == id && db[j].userId == userId)
    ensures r.Some? ==> forall j :: 0 <= j < r.value ==> !(db[j].id == id && db[j].userId == userId)
  {
    if |db| == 0 then None
    else if db[0].id == id && db[0].userId == userId then Some(0)
    else
      match FindOwned(db[1..], id, userId)
      case None =>
        assert forall j :: 1 <= j < |db| ==> db[j] == db[1..][j - 1];
        None
      case Some(k) => Some(k + 1)
  }

  /** `GET /{id}`. */
  function GetTranscription(db: Table, id: nat, userId: nat): (r: Result<Transcription, HttpError>)
    ensures r.Failure? <==> FindOwned(db, id, userId).None?
    ensures r.Failure? ==> r.error == HttpError(404, NotFound)
    ensures r.Success? ==> r.value in db && r.value.id == id && r.value.userId == userId
  {
    match FindOwned(db, id, userId)
    case None => Failure(HttpError(404, NotFound))
    case Some(k) => Success(db[k])
  }

  /** A stored result document. */
  datatype Document = Document(text: string, segments: Option<seq<WhisperService.Segment>>)

  /** What `GET /{id}/result` returns. */
  datatype ResultView = ResultView(text: string, segments: Option<seq<WhisperService.Segment>>,
                                   languageCode: string, wordCount: nat, speakerCount: nat)

  /** `GET /{id}/result`: the checks in order — not found or not owned (404),
      not completed (400), no document id (404), no document (404). */
  function GetTranscriptionResult(db: Table, docs: map<string, Document>, id: nat, userId: nat)
    : (r: Result<ResultView, HttpError>)
    ensures FindOwned(db, id, userId).None? ==> r == Failure(HttpError(404, NotFound))
    ensures FindOwned(db, id, userId).Some? ==>
      var t := db[FindOwned(db, id, userId).value];
      && (t.status != "completed" ==>
            r == Failure(HttpError(400, "Transcription is not completed yet. Current status: " + t.status)))
      && (t.status == "completed" && (t.mongoDocumentId.None? || t.mongoDocumentId.value == "") ==>
            r == Failure(HttpError(404, ResultNotFound)))
      && (t.status == "completed" && t.mongoDocumentId.Some? && t.mongoDocumentId.value != "" ==>
            (t.mongoDocumentId.value !in docs ==> r == Failure(HttpError(404, ResultNotFound)))
            && (t.mongoDocumentId.value in docs ==>
                  var d := docs[t.mongoDocumentId.value];
                  r == Success(ResultView(d.text, d.segments, t.languageCode, t.wordCount, t.speakerCount))))
  {
    match FindOwned(db, id, userId)
    case None => Failure(HttpError(404, NotFound))
    case Some(k) =>
      var t := db[k];
      if t.status != "completed" then
        Failure(HttpError(400, "Transcription is not completed yet. Current status: " + t.status))
      else if t.mongoDocumentId.None? || t.mongoDocumentId.value == "" then
        Failure(HttpError(404, ResultNotFound))
      else if t.mongoDocumentId.value !in docs then
        Failure(HttpError(404, ResultNotFound))
      else
        var d := docs[t.mongoDocumentId.value];
        Success(ResultView(d.text, d.segments, t.languageCode, t.wordCount, t.speakerCount))
  }

  /** A result is only ever returned for a completed record the caller owns,
      and every failure is a 404 or a 400. */
  lemma ResultOnlyWhenCompleted(db: Table, docs: map<string, Document>, id: nat, userId: nat)
    ensures var r := GetTranscriptionResult(db, docs, id, userId);
      && (r.Success? ==>
            exists k :: 0 <= k < |db| && db[k].id == id && db[k].userId == userId
                     && db[k].status == "completed" && db[k].mongoDocumentId.Some?
                     && db[k].mongoDocumentId.value in docs
                     && r.value.languageCode == db[k].languageCode)
      && (r.Failure? ==> r.error.code in {400, 404})
  {
    var r := GetTranscriptionResult(db, docs, id, userId);
    if r.Success? {
      var k := FindOwned(db, id, userId).value;
      assert db[k].id == id;
    }
  }

  /** `DELETE /{id}`: removes the caller's row and its result document. */
  function DeleteTranscription(db: Table, docs: map<string, Document>, id: nat, userId: nat)
    : (r: Result<(Table, map<string, Document>), HttpError>)
    ensures r.Failure? <==> FindOwned(db, id, userId).None?
    ensures r.Failure? ==> r.error == HttpError(404, NotFound)
    ensures r.Success? ==>
      var k := FindOwned(db, id, userId).value;
      && r.value.0 == db[..k] + db[k + 1..]
      && (db[k].mongoDocumentId.Some? && db[k].mongoDocumentId.value != "" ==>
            r.value.1 == docs - {db[k].mongoDocumentId.value})
      && (db[k].mongoDocumentId.None? || db[k].mongoDocumentId.value == "" ==> r.value.1 == docs)
  {
    match FindOwned(db, id, userId)
    case None => Failure(HttpError(404, NotFound))
    case Some(k) =>
      var m := db[k].mongoDocumentId;
      var docs' := if m.Some? && m.value != "" then docs - {m.value} else docs;
      Success((db[..k] + db[k + 1..], docs'))
  }

  /** Deleting never touches another user's rows: they are all still there,
      in the same order. */
  lemma DeleteKeepsOthers(db: Table, docs: map<string, Document>, id: nat, userId: nat, other: nat)
    requires other != userId
    requires DeleteTranscription(db, docs, id, userId).Success?
    ensures Owned(DeleteTranscription(db, docs, id, userId).value.0, other) == Owned(db, other)
  {
    RemoveKeepsOthers(db, FindOwned(db, id, userId).value, other);
  }

  lemma RemoveKeepsOthers(db: Table, k: nat, other: nat)
    requires k < |db| && db[k].userId != other
    ensures Owned(db[..k] + db[k + 1..], other) == Owned(db, other)
  {
    var a, b, x := db[..k], db[k + 1..], [db[k]];
    assert db == (a + x) + b;
    assert x[1..] == [];
    assert Owned(x, other) == [];
    OwnedConcat(a + x, b, other);
    OwnedConcat(a, x, other);
    assert Owned(a + x, other) == Owned(a, other);
    OwnedConcat(a, b, other);
  }

  lemma {:induction false} OwnedConcat(a: Table, b: Table, userId: nat)
    ensures Owned(a + b, userId) == Owned(a, userId) + Owned(b, userId)
  {
    if |a| > 0 {
      assert (a + b)[1..] == a[1..] + b;
      OwnedConcat(a[1..], b, userId);
    } else {
      assert a + b == b;
    }
  }

  // ---------------------------------------------------------------------------
  // Vocabularies
  // ---------------------------------------------------------------------------

  /** `POST /vocabulary`: the terms must parse as JSON (`isJson` stands for
      `json.loads` succeeding) before anything is stored. */
  function CreateVocabulary(vocabularies: seq<Vocabulary>, userId: nat, name: string,
                            description: Option<string>, languageCode: string, terms: string,
                            isJson: string -> bool)
    : (r: Result<seq<Vocabulary>, HttpError>)
    ensures r.Failure? <==> !isJson(terms)
    ensures r.Failure? ==> r.error == HttpError(400, InvalidTerms)
    ensures r.Success? ==> r.value == vocabularies + [Vocabulary(userId, name, description, languageCode, terms)]
  {
    if !isJson(terms) then Failure(HttpError(400, InvalidTerms))
    else Success(vocabularies + [Vocabulary(userId, name, description, languageCode, terms)])
  }

  /** The handler `get_custom_vocabularies`: the caller's vocabularies. As
      declared, `GET /vocabulary` never reaches it (`RouteGet`). */
  function ListVocabularies(vocabularies: seq<Vocabulary>, userId: nat): (r: seq<Vocabulary>)
    ensures forall i :: 0 <= i < |r| ==> r[i] in vocabularies && r[i].userId == userId
    ensures forall i :: 0 <= i < |vocabularies| && vocabularies[i].userId == userId ==> vocabularies[i] in r
  {
    Filter((v: Vocabulary) => v.userId == userId, vocabularies)
  }

  // ---------------------------------------------------------------------------
  // GET routing
  // ---------------------------------------------------------------------------

  /** The router's GET handlers. */
  datatype GetHandler = ListHandler | ItemHandler | ResultHandler | VocabularyHandler

  /** One segment of a route path: fixed text, or the `{transcription_id}`
      parameter. */
  datatype PathPart = Fixed(text: string) | IdParam

  datatype Route = Route(parts: seq<PathPart>, handler: GetHandler)

  /** The GET routes in declaration order: `/` (line 91), `/{transcription_id}`
      (line 103), `/{transcription_id}/result` (line 122) and `/vocabulary`
      (line 233). */
  const GetRoutes: seq<Route> := [
    Route([], ListHandler), Route([IdParam], ItemHandler),
    Route([IdParam, Fixed("result")], ResultHandler), Route([Fixed("vocabulary")], VocabularyHandler)]

  /** The same routes with `/vocabulary` declared before `/{transcription_id}`. */
  const CorrectedGetRoutes: seq<Route> := [
    Route([], ListHandler), Route([Fixed("vocabulary")], VocabularyHandler),
    Route([IdParam], ItemHandler), Route([IdParam, Fixed("result")], ResultHandler)]

  /** A path parameter matches any non-empty segment: its `int` annotation is
      checked only after the route is chosen. */
  predicate PartMatches(p: PathPart, segment: string) {
    match p
    case Fixed(t) => segment == t
    case IdParam => |segment| > 0
  }

  predicate RouteMatches(r: Route, path: seq<string>) {
    |r.parts| == |path| && forall i :: 0 <= i < |path| ==> PartMatches(r.parts[i], path[i])
  }

  /** The first route, in declaration order, that matches the path. */
  function FirstMatch(routes: seq<Route>, path: seq<string>): (r: Option<nat>)
    ensures r.Some? ==> r.value < |routes| && RouteMatches(routes[r.value], path)
    ensures r.Some? ==> forall j :: 0 <= j < r.value ==> !RouteMatches(routes[j], path)
    ensures r.None? <==> forall j :: 0 <= j < |routes| ==> !RouteMatches(routes[j], path)
  {
    if |routes| == 0 then None
    else if RouteMatches(routes[0], path) then Some(0)
    else
      match FirstMatch(routes[1..], path)
      case None =>
        assert forall j :: 1 <= j < |routes| ==> routes[j] == routes[1..][j - 1];
        None
      case Some(k) => Some(k + 1)
  }

  /** Which of the four route shapes a path matches. */
  lemma ShapesMatch(path: seq<string>)
    ensures RouteMatches(Route([], ListHandler), path) <==> path == []
    ensures RouteMatches(Route([IdParam], ItemHandler), path) <==> |path| == 1 && |path[0]| > 0
    ensures RouteMatches(Route([IdParam, Fixed("result")], ResultHandler), path)
        <==> |path| == 2 && |path[0]| > 0 && path[1] == "result"
    ensures RouteMatches(Route([Fixed("vocabulary")], VocabularyHandler), path) <==> path == ["vocabulary"]
  {
    if |path| == 1 && path[0] == "vocabulary" {
      assert path == ["vocabulary"];
    }
    if RouteMatches(Route([IdParam, Fixed("result")], ResultHandler), path) {
      assert PartMatches(IdParam, path[0]) && PartMatches(Fixed("result"), path[1]);
    }
  }

  /** As declared, the first match is the list, item or result route, by
      shape; `/vocabulary` is never first. */
  lemma DeclaredFirstMatch(path: seq<string>)
    ensures FirstMatch(GetRoutes, path) ==
      if path == [] then Some(0)
      else if |path| == 1 && |path[0]| > 0 then Some(1)
      else if |path| == 2 && |path[0]| > 0 && path[1] == "result" then Some(2)
      else None
  {
    ShapesMatch(path);
    var m := FirstMatch(GetRoutes, path);
    if m.Some? {
      assert m.value < 4;
      assert forall j :: 0 <= j < m.value ==> !RouteMatches(GetRoutes[j], path);
    } else {
      assert !RouteMatches(GetRoutes[0], path) && !RouteMatches(GetRoutes[1], path);
      assert !RouteMatches(GetRoutes[2], path) && !RouteMatches(GetRoutes[3], path);
    }
  }

  /** With `/vocabulary` first, it is matched by exactly that path. */
  lemma CorrectedFirstMatch(path: seq<string>)
    ensures FirstMatch(CorrectedGetRoutes, path) ==
      if path == [] then Some(0)
      else if path == ["vocabulary"] then Some(1)
      else if |path| == 1 && |path[0]| > 0 then Some(2)
      else if |path| == 2 && |path[0]| > 0 && path[1] == "result" then Some(3)
      else None
  {
    ShapesMatch(path);
    var m := FirstMatch(CorrectedGetRoutes, path);
    if m.Some? {
      assert m.value < 4;
    } else {
      assert !RouteMatches(CorrectedGetRoutes[0], path) && !RouteMatches(CorrectedGetRoutes[1], path);
      assert !RouteMatches(CorrectedGetRoutes[2], path) && !RouteMatches(CorrectedGetRoutes[3], path);
    }
  }

  /** Text that the `int` path parameter accepts: an optional sign and
      decimal digits. */
  predicate IntegerText(t: string) {
    if |t| > 0 && (t[0] == '-' || t[0] == '+') then |t| > 1 && AllDigits(t[1..])
    else |t| > 0 && AllDigits(t)
  }

  /** "vocabulary" is no integer. */
  lemma VocabularyNotInteger()
    ensures !IntegerText("vocabulary")
  {
    assert !IsDigit("vocabulary"[0]);
  }

  /** Where a GET request goes: a handler, with the id text when the route
      has one, or an error status. */
  datatype Dispatch = Handle(handler: GetHandler, id: Option<string>) | Refuse(status: nat)

  /** The first matching route takes the request: no match is 404, and an id
      that is not an integer is 422. The id is always the first segment. */
  function DispatchGet(routes: seq<Route>, path: seq<string>): (d: Dispatch)
    ensures d == Refuse(404) <==> FirstMatch(routes, path).None?
    ensures d.Handle? ==> d.handler == routes[FirstMatch(routes, path).value].handler
  {
    match FirstMatch(routes, path)
    case None => Refuse(404)
    case Some(k) =>
      var r := routes[k];
      if |r.parts| > 0 && r.parts[0] == IdParam then
        if IntegerText(path[0]) then Handle(r.handler, Some(path[0])) else Refuse(422)
      else Handle(r.handler, None)
  }

  /** GET routing as declared: `/{transcription_id}` comes first and takes
      `/vocabulary`, whose text is no integer, so the vocabulary listing is
      never reached. */
  function RouteGet(path: seq<string>): (d: Dispatch)
    ensures path == [] ==> d == Handle(ListHandler, None)
    ensures |path| == 1 && IntegerText(path[0]) ==> d == Handle(ItemHandler, Some(path[0]))
    ensures path == ["vocabulary"] ==> d == Refuse(422)
    ensures d.Handle? ==> d.handler != VocabularyHandler
  {
    DeclaredFirstMatch(path);
    VocabularyNotInteger();
    DispatchGet(GetRoutes, path)
  }

  /** GET routing with `/vocabulary` declared first: the listing is reached
      by exactly that path. */
  function CorrectedRouteGet(path: seq<string>): (d: Dispatch)
    ensures d == Handle(VocabularyHandler, None) <==> path == ["vocabulary"]
    ensures path == [] ==> d == Handle(ListHandler, None)
    ensures |path| == 1 && IntegerText(path[0]) ==> d == Handle(ItemHandler, Some(path[0]))
  {
    CorrectedFirstMatch(path);
    VocabularyNotInteger();
    DispatchGet(CorrectedGetRoutes, path)
  }

  /** The reordering changes where `/vocabulary` goes and nothing else. */
  lemma ReorderFreesOnlyVocabulary(path: seq<string>)
    ensures path != ["vocabulary"] ==> CorrectedRouteGet(path) == RouteGet(path)
    ensures path == ["vocabulary"] ==>
      RouteGet(path) == Refuse(422) && CorrectedRouteGet(path) == Handle(VocabularyHandler, None)
  {
    DeclaredFirstMatch(path);
    CorrectedFirstMatch(path);
  }
}
