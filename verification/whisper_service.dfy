/** The FastAPI back end's Whisper wrapper (backend/api/services/whisper_service.py):
    the model cache, language-code normalisation, the reshaping of the
    engine's segments, and the round-robin speaker assignment that stands in
    for diarization. The recogniser itself is a function parameter. */
module WhisperService {
  import opened Common
  import opened Text

  // ---------------------------------------------------------------------------
  // Model cache
  // ---------------------------------------------------------------------------

  /** A loaded model: its size and how many loads preceded it, so that two
      separately loaded instances are told apart. */
  datatype Model = Model(size: string, loadIndex: nat)

  /** The module-level cache and the number of loads performed so far. */
  datatype Cache = Cache(models: map<string, Model>, loads: nat)

  /** `get_whisper_model(size)`: loads on first use, then reuses. */
  function GetModel(c: Cache, size: string): (r: (Cache, Model))
    ensures size in c.models ==> r == (c, c.models[size])
    ensures size !in c.models ==> r.1 == Model(size, c.loads) && r.0.loads == c.loads + 1
    ensures r.0.models.Keys == c.models.Keys + {size} && r.0.models[size] == r.1
    ensures forall s :: s in c.models ==> s in r.0.models && r.0.models[s] == c.models[s]
  {
    if size in c.models then (c, c.models[size])
    else
      var m := Model(size, c.loads);
      (Cache(c.models[size := m], c.loads + 1), m)
  }

  /** Serves a sequence of requests from the cache, returning the models handed out. */
  function ServeAll(c: Cache, sizes: seq<string>): (r: (Cache, seq<Model>))
    ensures |r.1| == |sizes|
    decreases |sizes|
  {
    if |sizes| == 0 then (c, [])
    else
      var (c1, m) := GetModel(c, sizes[0]);
      var (c2, ms) := ServeAll(c1, sizes[1..]);
      (c2, [m] + ms)
  }

  function SizesOf(sizes: seq<string>): set<string> {
    set i | 0 <= i < |sizes| :: sizes[i]
  }

  lemma SizesOfCons(sizes: seq<string>)
    requires |sizes| > 0
    ensures SizesOf(sizes) == {sizes[0]} + SizesOf(sizes[1..])
  {
    forall x | x in SizesOf(sizes) ensures x in {sizes[0]} + SizesOf(sizes[1..]) {
      var i :| 0 <= i < |sizes| && sizes[i] == x;
      if i > 0 { assert sizes[1..][i - 1] == x; }
    }
  }

  lemma {:induction false} ServeAllKeys(c: Cache, sizes: seq<string>)
    ensures ServeAll(c, sizes).0.models.Keys == c.models.Keys + SizesOf(sizes)
    ensures forall s :: s in c.models ==> ServeAll(c, sizes).0.models[s] == c.models[s]
    decreases |sizes|
  {
    if |sizes| > 0 {
      SizesOfCons(sizes);
      ServeAllKeys(GetModel(c, sizes[0]).0, sizes[1..]);
    }
  }

  lemma DiffCons(x: string, rest: set<string>, k: set<string>)
    requires x !in k
    ensures |({x} + rest) - k| == |rest - (k + {x})| + 1
  {
    assert ({x} + rest) - k == (rest - (k + {x})) + {x};
  }

  lemma {:induction false} ServeAllLoads(c: Cache, sizes: seq<string>)
    ensures ServeAll(c, sizes).0.loads == c.loads + |SizesOf(sizes) - c.models.Keys|
    decreases |sizes|
  {
    if |sizes| > 0 {
      var x := sizes[0];
      var c1 := GetModel(c, x).0;
      ServeAllLoads(c1, sizes[1..]);
      SizesOfCons(sizes);
      var rest := SizesOf(sizes[1..]);
      var k, k1 := c.models.Keys, c1.models.Keys;
      assert k1 == k + {x};
      if x in k {
        assert k1 == k;
        assert SizesOf(sizes) - k == rest - k1;
      } else {
        assert c1.loads == c.loads + 1;
        DiffCons(x, rest, k);
      }
    }
  }

  lemma {:induction false} ServeAllServed(c: Cache, sizes: seq<string>)
    ensures forall i :: 0 <= i < |sizes| ==>
      sizes[i] in ServeAll(c, sizes).0.models && ServeAll(c, sizes).1[i] == ServeAll(c, sizes).0.models[sizes[i]]
    decreases |sizes|
  {
    if |sizes| > 0 {
      var (c1, m) := GetModel(c, sizes[0]);
      ServeAllServed(c1, sizes[1..]);
      ServeAllKeys(c1, sizes[1..]);
      var (after, served) := ServeAll(c, sizes);
      assert served[1..] == ServeAll(c1, sizes[1..]).1;
      forall i | 0 <= i < |sizes|
        ensures sizes[i] in after.models && served[i] == after.models[sizes[i]]
      {
        if i > 0 { assert sizes[i] == sizes[1..][i - 1] && served[i] == served[1..][i - 1]; }
      }
    }
  }

  /** A model is loaded at most once per size: the number of loads grows by
      exactly the number of distinct sizes not already cached, every size
      requested ends up cached, cached models are never replaced, and every
      request is answered with the cached instance. */
  lemma LoadsOncePerSize(c: Cache, sizes: seq<string>)
    ensures ServeAll(c, sizes).0.loads == c.loads + |SizesOf(sizes) - c.models.Keys|
    ensures ServeAll(c, sizes).0.models.Keys == c.models.Keys + SizesOf(sizes)
    ensures forall s :: s in c.models ==> ServeAll(c, sizes).0.models[s] == c.models[s]
    ensures forall i :: 0 <= i < |sizes| ==> ServeAll(c, sizes).1[i] == ServeAll(c, sizes).0.models[sizes[i]]
  {
    ServeAllKeys(c, sizes);
    ServeAllLoads(c, sizes);
    ServeAllServed(c, sizes);
  }

  // ---------------------------------------------------------------------------
  // Transcription
  // ---------------------------------------------------------------------------

  /** A segment as the recogniser reports it (times in milliseconds). */
  datatype RawSegment = RawSegment(start: int, end: int, text: string, confidence: Option<real>)

  datatype RawResult = RawResult(text: string, segments: seq<RawSegment>, language: Option<string>)

  /** A segment as the service returns it. */
  datatype Segment = Segment(speakerId: string, start: int, end: int, text: string, confidence: real)

  datatype Transcription = Transcription(text: string, segments: seq<Segment>, language: string)

  /** The recogniser: `model.transcribe(audio, language=…)` for one audio file,
      by model size and language option. */
  type Engine = (string, Option<string>) -> Result<RawResult, string>

  const DefaultConfidence: real := 0.9
  const DefaultLanguage: string := "en"

  function SpeakerId(n: int): string {
    "speaker_" + IntToString(n)
  }

  /** A language hint reduced to its primary subtag ("en-US" becomes "en");
      an absent or empty hint sets no language. */
  function NormalizeLanguage(code: Option<string>): (r: Option<string>)
    ensures r.Some? <==> code.Some? && code.value != ""
    ensures r.Some? ==> !Contains(r.value, "-")
    ensures r.Some? && Contains(code.value, "-") ==> code.value == r.value + "-" + After(code.value, "-")
    ensures r.Some? && !Contains(code.value, "-") ==> r.value == code.value
  {
    if code.Some? && code.value != "" then
      var lang := Before(code.value, "-");
      assert !Contains(lang, "-") by {
        if Contains(code.value, "-") {
          forall j | 0 <= j <= |lang| ensures !OccursAt(lang, "-", j) {
            if OccursAt(lang, "-", j) { assert OccursAt(code.value, "-", j); }
          }
        }
      }
      Some(lang)
    else None
  }

  /** Normalising a normalised hint changes nothing, unless it became empty. */
  lemma NormalizeIdempotent(code: Option<string>)
    requires NormalizeLanguage(code).Some? && NormalizeLanguage(code).value != ""
    ensures NormalizeLanguage(NormalizeLanguage(code)) == NormalizeLanguage(code)
  {
  }

  function MapSegment(s: RawSegment): Segment {
    Segment(SpeakerId(1), s.start, s.end, s.text, s.confidence.GetOr(DefaultConfidence))
  }

  /** One output segment per engine segment, in order, with the timing and
      text copied, speaker "speaker_1", and confidence 0.9 when the engine
      gives none. */
  function MapSegments(raw: seq<RawSegment>): (r: seq<Segment>)
    ensures |r| == |raw|
    ensures forall i :: 0 <= i < |r| ==>
      && r[i].speakerId == "speaker_1"
      && r[i].start == raw[i].start && r[i].end == raw[i].end && r[i].text == raw[i].text
      && r[i].confidence == (if raw[i].confidence.Some? then raw[i].confidence.value else 0.9)
  {
    assert SpeakerId(1) == "speaker_1";
    seq(|raw|, i requires 0 <= i < |raw| => MapSegment(raw[i]))
  }

  /** The language reported: the engine's, else the hint as given, else "en". */
  function ResultLanguage(engineLanguage: Option<string>, code: Option<string>): (r: string)
    ensures engineLanguage.Some? ==> r == engineLanguage.value
    ensures engineLanguage.None? && code.Some? && code.value != "" ==> r == code.value
    ensures engineLanguage.None? && (code.None? || code.value == "") ==> r == DefaultLanguage
  {
    engineLanguage.GetOr(if code.Some? && code.value != "" then code.value else DefaultLanguage)
  }

  /** `transcribe_audio(file, language_code, model_size)`. */
  function TranscribeAudio(engine: Engine, code: Option<string>, modelSize: string)
    : (r: Result<Transcription, string>)
    ensures engine(modelSize, NormalizeLanguage(code)).Failure? ==>
      r == Failure(engine(modelSize, NormalizeLanguage(code)).error)
    ensures engine(modelSize, NormalizeLanguage(code)).Success? ==>
      var raw := engine(modelSize, NormalizeLanguage(code)).value;
      r == Success(Transcription(raw.text, MapSegments(raw.segments), ResultLanguage(raw.language, code)))
  {
    match engine(modelSize, NormalizeLanguage(code))
    case Failure(e) => Failure(e)
    case Success(raw) =>
      Success(Transcription(raw.text, MapSegments(raw.segments), ResultLanguage(raw.language, code)))
  }

  // ---------------------------------------------------------------------------
  // Speaker assignment
  // ---------------------------------------------------------------------------

  const DefaultSpeakers: int := 2
  const ModuloByZero: string := "integer modulo by zero"

  /** Python's `a % b`: the remainder takes the sign of the divisor. */
  function PyMod(a: int, b: int): (r: int)
    requires b != 0
    ensures b > 0 ==> 0 <= r < b
    ensures b < 0 ==> b < r <= 0
    ensures b > 0 ==> r == a % b
    ensures r == 0 <==> a % b == 0
  {
    var m := a % b;
    if b < 0 && m != 0 then m + b else m
  }

  /** Segment `i` goes to speaker `(i mod k) + 1`; the number of speakers
      defaults to 2, and 0 speakers fails as soon as there is a segment. */
  function Diarize(t: Transcription, numSpeakers: Option<int>): (r: Result<Transcription, string>)
    ensures r.Failure? <==> numSpeakers == Some(0) && |t.segments| > 0
    ensures r.Failure? ==> r.error == ModuloByZero
    ensures r.Success? ==>
      && r.value.text == t.text && r.value.language == t.language
      && |r.value.segments| == |t.segments|
      && forall i :: 0 <= i < |t.segments| ==>
           r.value.segments[i] == t.segments[i].(speakerId := r.value.segments[i].speakerId)
  {
    var k := numSpeakers.GetOr(DefaultSpeakers);
    if k == 0 && |t.segments| > 0 then Failure(ModuloByZero)
    else if k == 0 then Success(t)
    else
      var segs := seq(|t.segments|, i requires 0 <= i < |t.segments| =>
        t.segments[i].(speakerId := SpeakerId(PyMod(i, k) + 1)));
      Success(t.(segments := segs))
  }

  /** `transcribe_with_diarization(file, language_code, model_size, num_speakers)`. */
  function TranscribeWithDiarization(engine: Engine, code: Option<string>, modelSize: string,
                                     numSpeakers: Option<int>)
    : (r: Result<Transcription, string>)
    ensures TranscribeAudio(engine, code, modelSize).Failure? ==> r == TranscribeAudio(engine, code, modelSize)
    ensures TranscribeAudio(engine, code, modelSize).Success? ==>
      r == Diarize(TranscribeAudio(engine, code, modelSize).value, numSpeakers)
  {
    match TranscribeAudio(engine, code, modelSize)
    case Failure(e) => Failure(e)
    case Success(t) => Diarize(t, numSpeakers)
  }

  function SpeakerSet(segments: seq<Segment>): set<string> {
    set i | 0 <= i < |segments| :: segments[i].speakerId
  }

  lemma SpeakerIdInjective(a: nat, b: nat)
    requires SpeakerId(a) == SpeakerId(b)
    ensures a == b
  {
    var p := "speaker_";
    assert SpeakerId(a)[|p|..] == NatToString(a);
    assert SpeakerId(b)[|p|..] == NatToString(b);
    ParseNatToString(a);
    ParseNatToString(b);
  }

  function IdRange(m: nat): set<string> {
    set j | 1 <= j <= m :: SpeakerId(j)
  }

  lemma {:induction false} IdRangeSize(m: nat)
    ensures |IdRange(m)| == m
  {
    if m > 0 {
      IdRangeSize(m - 1);
      assert IdRange(m) == IdRange(m - 1) + {SpeakerId(m)};
      if SpeakerId(m) in IdRange(m - 1) {
        var j :| 1 <= j <= m - 1 && SpeakerId(j) == SpeakerId(m);
        SpeakerIdInjective(j, m);
      }
    }
  }

  lemma DiarizedIds(t: Transcription, k: int)
    requires k > 0
    ensures Diarize(t, Some(k)).Success?
    ensures forall i :: 0 <= i < |t.segments| ==>
      Diarize(t, Some(k)).value.segments[i].speakerId == SpeakerId(i % k + 1)
  {
  }

  lemma SmallMod(a: int, k: int)
    requires 0 <= a < k
    ensures a % k == a
  {
  }

  /** Ids dealt round-robin over `k` speakers use exactly the first
      `min(n, k)` of them. */
  lemma RoundRobinSet(segs: seq<Segment>, k: int)
    requires k > 0
    requires forall i :: 0 <= i < |segs| ==> segs[i].speakerId == SpeakerId(i % k + 1)
    ensures SpeakerSet(segs) == IdRange(if |segs| < k then |segs| else k)
  {
    var m := if |segs| < k then |segs| else k;
    forall x | x in SpeakerSet(segs) ensures x in IdRange(m) {
      var i :| 0 <= i < |segs| && segs[i].speakerId == x;
      if |segs| < k { SmallMod(i, k); }
      assert 1 <= i % k + 1 <= m;
    }
    forall x | x in IdRange(m) ensures x in SpeakerSet(segs) {
      var j :| 1 <= j <= m && SpeakerId(j) == x;
      SmallMod(j - 1, k);
      assert segs[j - 1].speakerId == x;
    }
  }

  /** With `k > 0` speakers every id is one of "speaker_1" … "speaker_k", and
      exactly `min(n, k)` distinct ids are used for `n` segments. */
  lemma DiarizedSpeakers(t: Transcription, k: int)
    requires k > 0
    ensures Diarize(t, Some(k)).Success?
    ensures var segs := Diarize(t, Some(k)).value.segments;
      && (forall i :: 0 <= i < |segs| ==> exists j :: 1 <= j <= k && segs[i].speakerId == SpeakerId(j))
      && |SpeakerSet(segs)| == (if |segs| < k then |segs| else k)
  {
    DiarizedIds(t, k);
    var segs := Diarize(t, Some(k)).value.segments;
    var m := if |segs| < k then |segs| else k;
    forall i | 0 <= i < |segs|
      ensures exists j :: 1 <= j <= k && segs[i].speakerId == SpeakerId(j)
    {
      var j := i % k + 1;
      assert 1 <= j <= k && segs[i].speakerId == SpeakerId(j);
    }
    RoundRobinSet(segs, k);
    IdRangeSize(m);
  }
}
