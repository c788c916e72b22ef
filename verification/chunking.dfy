/** The long-audio path of the Flask application's `transcribe_audio`
    (web_app.py): decide whether to split, cut `[0, len)` into fixed windows,
    send every window to the recognition engine, and merge the per-window
    results into one, shifting timestamps by the window's offset.

    Audio is a length in integer milliseconds; the recognition engine is a
    function parameter. Segment timestamps are integer milliseconds too. */
module Chunking {
  import opened Common
  import opened Text

  const MsPerMinute: nat := 60000

  /** The separator placed between the texts of consecutive chunks. */
  const ChunkSeparator: string := "\n\n"

  /** A time-stamped span of recognised text. */
  datatype Segment = Segment(start: int, end: int, text: string)

  /** The slice `audio[start:end]` of the input, in milliseconds. */
  datatype Window = Window(start: nat, end: nat)

  /** What the engine is asked: the audio window and the `language` option, if any. */
  datatype EngineRequest = EngineRequest(window: Window, language: Option<string>)

  /** What the engine returns: `text`, `segments` and, possibly, `language`. */
  datatype EngineResult = EngineResult(text: string, segments: seq<Segment>, language: Option<string>)

  /** The recognition engine; a failure is the message of the exception it raises. */
  type Engine = EngineRequest -> Result<EngineResult, string>

  function Min(a: int, b: int): int {
    if a < b then a else b
  }

  /** `language and language != "auto"`: the caller named a language. */
  predicate IsExplicitLanguage(hint: Option<string>) {
    hint.Some? && hint.value != "" && hint.value != "auto"
  }

  /** The `language` option handed to the engine. */
  function LanguageOption(hint: Option<string>): (r: Option<string>)
    ensures r.Some? <==> IsExplicitLanguage(hint)
    ensures r.Some? ==> r == hint
  {
    if IsExplicitLanguage(hint) then hint else None
  }

  /** `duration_seconds > chunk_size * 60`, stated on milliseconds. */
  predicate UsesChunking(lenMs: nat, chunkMinutes: int) {
    lenMs > chunkMinutes * MsPerMinute
  }

  // ---------------------------------------------------------------------------
  // Planning: `range(0, len(audio), chunk_duration_ms)`
  // ---------------------------------------------------------------------------

  /** The windows `[s, min(s + step, len))` for `s` in `range(start, len, step)`. */
  function WindowsFrom(start: nat, lenMs: nat, step: nat): seq<Window>
    requires step > 0
    decreases lenMs - start
  {
    if start >= lenMs then []
    else [Window(start, Min(start + step, lenMs))] + WindowsFrom(start + step, lenMs, step)
  }

  /** The chunk plan for audio of `lenMs` milliseconds. */
  function ChunkWindows(lenMs: nat, step: nat): seq<Window>
    requires step > 0
  {
    WindowsFrom(0, lenMs, step)
  }

  /** `ws` lie end to end, each non-empty, from `from` up to `to`. */
  ghost predicate Tiles(ws: seq<Window>, from: int, to: int)
    decreases |ws|
  {
    if |ws| == 0 then from == to
    else ws[0].start == from && from < ws[0].end && Tiles(ws[1..], ws[0].end, to)
  }

  lemma {:induction false} WindowsFromTile(start: nat, lenMs: nat, step: nat)
    requires step > 0 && start <= lenMs
    ensures Tiles(WindowsFrom(start, lenMs, step), start, lenMs)
    decreases lenMs - start
  {
    if start < lenMs && start + step <= lenMs {
      WindowsFromTile(start + step, lenMs, step);
    }
  }

  /** The chunk plan tiles `[0, len)`: it starts at 0, ends at `len`, and every
      window is non-empty and starts where the previous one ended. */
  lemma ChunkWindowsTile(lenMs: nat, step: nat)
    requires step > 0
    ensures Tiles(ChunkWindows(lenMs, step), 0, lenMs)
  {
    WindowsFromTile(0, lenMs, step);
  }

  lemma {:induction false} TilesBounds(ws: seq<Window>, from: int, to: int)
    requires Tiles(ws, from, to)
    ensures from <= to
    ensures forall i :: 0 <= i < |ws| ==> from <= ws[i].start < ws[i].end <= to
    decreases |ws|
  {
    if |ws| > 0 {
      TilesBounds(ws[1..], ws[0].end, to);
    }
  }

  /** Windows of a tiling never overlap, and come in increasing order. */
  lemma {:induction false} TilesDisjoint(ws: seq<Window>, from: int, to: int)
    requires Tiles(ws, from, to)
    ensures forall i, j :: 0 <= i < j < |ws| ==> ws[i].end <= ws[j].start
    decreases |ws|
  {
    if |ws| > 0 {
      TilesBounds(ws[1..], ws[0].end, to);
      TilesDisjoint(ws[1..], ws[0].end, to);
      forall i, j | 0 <= i < j < |ws| ensures ws[i].end <= ws[j].start {
        if i > 0 {
          assert ws[i] == ws[1..][i - 1] && ws[j] == ws[1..][j - 1];
        } else {
          assert ws[j] == ws[1..][j - 1];
        }
      }
    }
  }

  /** Instant `t` lies in one of the windows. */
  ghost predicate Covered(ws: seq<Window>, t: int) {
    exists i :: 0 <= i < |ws| && ws[i].start <= t < ws[i].end
  }

  /** Every instant of a tiled range lies in some window. */
  lemma {:induction false} TilesCover(ws: seq<Window>, from: int, to: int, t: int)
    requires Tiles(ws, from, to) && from <= t < to
    ensures Covered(ws, t)
    decreases |ws|
  {
    if t >= ws[0].end {
      TilesCover(ws[1..], ws[0].end, to, t);
      var i :| 0 <= i < |ws[1..]| && ws[1..][i].start <= t < ws[1..][i].end;
      assert ws[i + 1] == ws[1..][i];
    }
  }

  /** Every window but the last is exactly `step` long. */
  ghost predicate FullButLast(ws: seq<Window>, step: nat) {
    forall i :: 0 <= i < |ws| - 1 ==> ws[i].end - ws[i].start == step
  }

  lemma {:induction false} WindowsFromFull(start: nat, lenMs: nat, step: nat)
    requires step > 0
    ensures FullButLast(WindowsFrom(start, lenMs, step), step)
    decreases lenMs - start
  {
    if start < lenMs {
      WindowsFromFull(start + step, lenMs, step);
      var ws := WindowsFrom(start, lenMs, step);
      var rest := WindowsFrom(start + step, lenMs, step);
      assert ws[1..] == rest;
      forall i | 0 <= i < |ws| - 1 ensures ws[i].end - ws[i].start == step {
        if i == 0 {
          assert ws[0] == Window(start, Min(start + step, lenMs));
          assert |rest| > 0;
          assert start + step < lenMs;
        } else {
          assert ws[i] == rest[i - 1];
        }
      }
    }
  }

  /** Window `i` starts at `i * step` past the first. */
  lemma {:induction false} WindowsFromStart(start: nat, lenMs: nat, step: nat, i: nat)
    requires step > 0 && i < |WindowsFrom(start, lenMs, step)|
    ensures WindowsFrom(start, lenMs, step)[i].start == start + i * step
    decreases i
  {
    if i > 0 {
      WindowsFromStart(start + step, lenMs, step, i - 1);
      assert WindowsFrom(start, lenMs, step)[i] == WindowsFrom(start + step, lenMs, step)[i - 1];
      assert start + step + (i - 1) * step == start + i * step;
    }
  }

  /** The plan has `ceil((len - start) / step)` windows: the least count whose
      steps reach `len`. */
  lemma {:induction false} WindowsFromCount(start: nat, lenMs: nat, step: nat)
    requires step > 0 && start <= lenMs
    ensures var n := |WindowsFrom(start, lenMs, step)|;
      n * step >= lenMs - start && (n == 0 || (n - 1) * step < lenMs - start)
    decreases lenMs - start
  {
    if start < lenMs {
      var n := |WindowsFrom(start, lenMs, step)|;
      var m := |WindowsFrom(start + step, lenMs, step)|;
      assert n == m + 1;
      if start + step <= lenMs {
        WindowsFromCount(start + step, lenMs, step);
        assert n * step == m * step + step;
        if m > 0 {
          assert (n - 1) * step == (m - 1) * step + step;
        }
      } else {
        assert m == 0;
      }
    }
  }

  /** The shape of the chunk plan: `ceil(len / step)` windows (the least `n`
      with `n * step >= len`); window `i` is
      `[i * step, min((i + 1) * step, len))`; consecutive windows meet; all
      but the last are one step long; the windows cover `[0, len)` and never
      overlap. */
  lemma ChunkPlan(lenMs: nat, step: nat)
    requires step > 0
    ensures var ws := ChunkWindows(lenMs, step);
      && |ws| * step >= lenMs && (|ws| == 0 || (|ws| - 1) * step < lenMs)
      && (forall i :: 0 <= i < |ws| ==> ws[i].start == i * step)
      && (forall i :: 0 <= i < |ws| ==> ws[i].end == Min(ws[i].start + step, lenMs))
      && (forall i :: 0 <= i < |ws| - 1 ==> ws[i].end == ws[i + 1].start)
      && FullButLast(ws, step)
      && (forall i, j :: 0 <= i < j < |ws| ==> ws[i].end <= ws[j].start)
      && (forall t :: 0 <= t < lenMs ==> Covered(ws, t))
  {
    var ws := ChunkWindows(lenMs, step);
    WindowsFromCount(0, lenMs, step);
    WindowsFromFull(0, lenMs, step);
    ChunkWindowsTile(lenMs, step);
    TilesDisjoint(ws, 0, lenMs);
    forall i | 0 <= i < |ws| ensures ws[i].start == i * step {
      WindowsFromStart(0, lenMs, step, i);
    }
    forall i | 0 <= i < |ws| ensures ws[i].end == Min(ws[i].start + step, lenMs) {
      WindowEnd(0, lenMs, step, i);
    }
    forall i | 0 <= i < |ws| - 1 ensures ws[i].end == ws[i + 1].start {
      TilesMeet(ws, 0, lenMs, i);
    }
    forall t | 0 <= t < lenMs ensures Covered(ws, t) {
      TilesCover(ws, 0, lenMs, t);
    }
  }

  lemma {:induction false} WindowEnd(start: nat, lenMs: nat, step: nat, i: nat)
    requires step > 0 && i < |WindowsFrom(start, lenMs, step)|
    ensures var w := WindowsFrom(start, lenMs, step)[i]; w.end == Min(w.start + step, lenMs)
    decreases i
  {
    if i > 0 {
      WindowEnd(start + step, lenMs, step, i - 1);
      assert WindowsFrom(start, lenMs, step)[i] == WindowsFrom(start + step, lenMs, step)[i - 1];
    }
  }

  lemma {:induction false} TilesMeet(ws: seq<Window>, from: int, to: int, i: nat)
    requires Tiles(ws, from, to) && i + 1 < |ws|
    ensures ws[i].end == ws[i + 1].start
    decreases i
  {
    if i > 0 {
      TilesMeet(ws[1..], ws[0].end, to, i - 1);
      assert ws[i] == ws[1..][i - 1] && ws[i + 1] == ws[1..][i];
    }
  }

  // ---------------------------------------------------------------------------
  // Aggregation
  // ---------------------------------------------------------------------------

  function ShiftSegment(s: Segment, offset: int): Segment {
    s.(start := s.start + offset, end := s.end + offset)
  }

  /** `segment["start"] += time_offset; segment["end"] += time_offset` for every segment. */
  function Shift(segs: seq<Segment>, offset: int): (r: seq<Segment>)
    ensures |r| == |segs|
    ensures forall j :: 0 <= j < |segs| ==> r[j] == ShiftSegment(segs[j], offset)
  {
    seq(|segs|, j requires 0 <= j < |segs| => ShiftSegment(segs[j], offset))
  }

  /** The number of segments in the first `n` chunk results. */
  function SegmentCount(results: seq<EngineResult>): nat {
    if |results| == 0 then 0
    else SegmentCount(results[..|results| - 1]) + |results[|results| - 1].segments|
  }

  /** The merged segment list: chunk `i`'s segments shifted by `i * step`,
      appended in chunk order. */
  function MergeSegments(results: seq<EngineResult>, step: int): seq<Segment> {
    if |results| == 0 then []
    else
      var n := |results| - 1;
      MergeSegments(results[..n], step) + Shift(results[n].segments, n * step)
  }

  function Texts(results: seq<EngineResult>): (r: seq<string>)
    ensures |r| == |results|
    ensures forall i :: 0 <= i < |results| ==> r[i] == results[i].text
  {
    seq(|results|, i requires 0 <= i < |results| => results[i].text)
  }

  /** The merged language: the caller's explicit language, otherwise the last
      chunk's language defaulting to "en"; `None` when there is neither (the
      source then reads an unbound variable). */
  function MergedLanguage(hint: Option<string>, results: seq<EngineResult>): (r: Option<string>)
    ensures IsExplicitLanguage(hint) ==> r == hint
    ensures !IsExplicitLanguage(hint) && |results| > 0 ==>
      r == Some(results[|results| - 1].language.GetOr("en"))
    ensures r.None? <==> !IsExplicitLanguage(hint) && |results| == 0
  {
    if IsExplicitLanguage(hint) then hint
    else if |results| > 0 then Some(results[|results| - 1].language.GetOr("en"))
    else None
  }

  /** Segment `j` of chunk `i` is found, shifted by `i * step`, at position
      `SegmentCount(results[..i]) + j` of the merge: merged segments keep chunk
      order, then the engine's order inside each chunk. */
  lemma {:induction false} MergedSegmentAt(results: seq<EngineResult>, step: int, i: nat, j: nat)
    requires i < |results| && j < |results[i].segments|
    ensures |MergeSegments(results, step)| == SegmentCount(results)
    ensures SegmentCount(results[..i]) + j < SegmentCount(results)
    ensures MergeSegments(results, step)[SegmentCount(results[..i]) + j]
         == ShiftSegment(results[i].segments[j], i * step)
    decreases |results|
  {
    var n := |results| - 1;
    var prefix := results[..n];
    MergedLength(prefix, step);
    if i < n {
      assert prefix[..i] == results[..i];
      MergedSegmentAt(prefix, step, i, j);
      PrefixCount(results, i);
    } else {
      assert results[..i] == prefix;
    }
  }

  lemma {:induction false} MergedLength(results: seq<EngineResult>, step: int)
    ensures |MergeSegments(results, step)| == SegmentCount(results)
    decreases |results|
  {
    if |results| > 0 {
      MergedLength(results[..|results| - 1], step);
    }
  }

  /** A prefix of the chunk results contributes no more segments than the whole,
      and stops short by at least its successor's segments. */
  lemma {:induction false} PrefixCount(results: seq<EngineResult>, i: nat)
    requires i < |results|
    ensures SegmentCount(results[..i]) + |results[i].segments| <= SegmentCount(results)
    decreases |results|
  {
    var n := |results| - 1;
    if i < n {
      assert results[..n][..i] == results[..i];
      PrefixCount(results[..n], i);
    } else {
      assert results[..i] == results[..n];
    }
  }

  /** The merged result of the chunk results, as the source builds it. */
  function Aggregate(results: seq<EngineResult>, step: int, hint: Option<string>): EngineResult
    requires IsExplicitLanguage(hint) || |results| > 0
  {
    EngineResult(
      Join(ChunkSeparator, Texts(results)),
      MergeSegments(results, step),
      MergedLanguage(hint, results))
  }

  /** The loop of the source, appending chunk by chunk; it computes `Aggregate`. */
  method AggregateLoop(results: seq<EngineResult>, step: int, hint: Option<string>)
    returns (merged: EngineResult)
    requires IsExplicitLanguage(hint) || |results| > 0
    ensures merged == Aggregate(results, step, hint)
  {
    var allSegments: seq<Segment> := [];
    var fullText: string := "";
    var i := 0;
    while i < |results|
      invariant 0 <= i <= |results|
      invariant allSegments == MergeSegments(results[..i], step)
      invariant i > 0 ==> fullText == Join(ChunkSeparator, Texts(results[..i]))
      invariant i == 0 ==> fullText == ""
    {
      assert results[..i + 1][..i] == results[..i];
      allSegments := allSegments + Shift(results[i].segments, i * step);
      if i > 0 {
        fullText := fullText + ChunkSeparator;
        assert Texts(results[..i + 1]) == Texts(results[..i]) + [results[i].text];
        JoinSnoc(ChunkSeparator, Texts(results[..i]), results[i].text);
      } else {
        assert Texts(results[..1]) == [results[0].text];
      }
      fullText := fullText + results[i].text;
      i := i + 1;
    }
    assert results[..i] == results;
    var language := if IsExplicitLanguage(hint) then hint
      else Some(results[|results| - 1].language.GetOr("en"));
    merged := EngineResult(fullText, allSegments, language);
  }

  // ---------------------------------------------------------------------------
  // The whole of `transcribe_audio`
  // ---------------------------------------------------------------------------

  /** Window `k` is the first whose transcription fails, with message `e`. */
  ghost predicate FirstFailure(ws: seq<Window>, language: Option<string>, engine: Engine, k: int, e: string) {
    && 0 <= k < |ws|
    && engine(EngineRequest(ws[k], language)) == Failure(e)
    && forall i :: 0 <= i < k ==> engine(EngineRequest(ws[i], language)).Success?
  }

  /** Sends each window to the engine in order; the first failure aborts. */
  function TranscribeChunks(ws: seq<Window>, language: Option<string>, engine: Engine)
    : (r: Result<seq<EngineResult>, string>)
    ensures r.Success? ==> |r.value| == |ws|
    ensures r.Success? ==> forall i :: 0 <= i < |ws| ==>
      engine(EngineRequest(ws[i], language)) == Success(r.value[i])
    ensures r.Failure? ==> exists k :: FirstFailure(ws, language, engine, k, r.error)
  {
    if |ws| == 0 then Success([])
    else
      match engine(EngineRequest(ws[0], language))
      case Failure(e) =>
        assert FirstFailure(ws, language, engine, 0, e);
        Failure(e)
      case Success(first) =>
        match TranscribeChunks(ws[1..], language, engine)
        case Failure(e) =>
          assert exists k :: FirstFailure(ws, language, engine, k, e) by {
            var k :| FirstFailure(ws[1..], language, engine, k, e);
            assert forall i :: 1 <= i < k + 1 ==> ws[i] == ws[1..][i - 1];
            assert FirstFailure(ws, language, engine, k + 1, e);
          }
          Failure(e)
        case Success(rest) => Success([first] + rest)
  }

  const StepZeroError: string := "range() arg 3 must not be zero"
  const UnboundChunkResult: string :=
    "cannot access local variable 'chunk_result' where it is not associated with a value"

  /** `transcribe_audio(audio, model_size, language, chunk_size)` for audio of
      `lenMs` milliseconds. */
  function TranscribeAudio(lenMs: nat, chunkMinutes: int, hint: Option<string>, engine: Engine)
    : (r: Result<EngineResult, string>)
    // Short audio: one engine call on the whole input, result returned unchanged.
    ensures !UsesChunking(lenMs, chunkMinutes) ==>
      r == engine(EngineRequest(Window(0, lenMs), LanguageOption(hint)))
    // A zero chunk size makes `range` raise.
    ensures UsesChunking(lenMs, chunkMinutes) && chunkMinutes == 0 ==> r == Failure(StepZeroError)
    // A negative chunk size gives no windows and no engine call: an explicit
    // language yields the empty merge in that language, otherwise reading
    // the never-assigned chunk result raises.
    ensures UsesChunking(lenMs, chunkMinutes) && chunkMinutes < 0 ==>
      && (r.Success? <==> IsExplicitLanguage(hint))
      && (r.Success? ==> r.value == EngineResult("", [], hint))
      && (r.Failure? ==> r.error == UnboundChunkResult)
    // Long audio: the merge of the per-window results, or the first window's failure.
    ensures UsesChunking(lenMs, chunkMinutes) && chunkMinutes > 0 ==>
      var step := chunkMinutes * MsPerMinute;
      var chunks := TranscribeChunks(ChunkWindows(lenMs, step), LanguageOption(hint), engine);
      && (r.Success? <==> chunks.Success?)
      && (chunks.Failure? ==> r.error == chunks.error)
      && (chunks.Success? ==> |chunks.value| > 0 && r.value == Aggregate(chunks.value, step, hint))
  {
    var language := LanguageOption(hint);
    if !UsesChunking(lenMs, chunkMinutes) then
      engine(EngineRequest(Window(0, lenMs), language))
    else if chunkMinutes == 0 then
      Failure(StepZeroError)
    else if chunkMinutes < 0 then
      // `range(0, len, negative)` is empty: no chunk is transcribed.
      if IsExplicitLanguage(hint) then Success(Aggregate([], chunkMinutes * MsPerMinute, hint))
      else Failure(UnboundChunkResult)
    else
      var step := chunkMinutes * MsPerMinute;
      var ws := ChunkWindows(lenMs, step);
      match TranscribeChunks(ws, language, engine)
      case Failure(e) => Failure(e)
      case Success(results) =>
        assert |ws| > 0;
        Success(Aggregate(results, step, hint))
  }

  /** Merged text of `n > 0` chunks: the texts with exactly `n - 1` separators. */
  lemma AggregateTextLength(results: seq<EngineResult>, step: int, hint: Option<string>)
    requires |results| > 0
    ensures |Aggregate(results, step, hint).text|
         == TotalLength(Texts(results)) + (|results| - 1) * |ChunkSeparator|
  {
    JoinLength(ChunkSeparator, Texts(results));
  }

  /** One chunk: its text and segments pass through unchanged (offset 0). */
  lemma SingleChunkUnchanged(r: EngineResult, step: int, hint: Option<string>)
    ensures Aggregate([r], step, hint).text == r.text
    ensures Aggregate([r], step, hint).segments == r.segments
  {
    assert [r][..0] == [];
    assert Texts([r]) == [r.text];
    assert 0 * step == 0;
    assert MergeSegments([r], step) == MergeSegments([], step) + Shift(r.segments, 0);
    assert Shift(r.segments, 0) == r.segments;
  }

  /** The worked example of a 45-minute recording cut into 30-minute chunks:
      two windows, at 0 and 1800 s; a segment (10 s, 20 s) of the first chunk
      stays put and a segment (5 s, 15 s) of the second moves to (1805 s, 1815 s). */
  lemma FortyFiveMinuteExample(engine: Engine)
    requires engine(EngineRequest(Window(0, 1800000), None))
          == Success(EngineResult("hello", [Segment(10000, 20000, "hello")], Some("en")))
    requires engine(EngineRequest(Window(1800000, 2700000), None))
          == Success(EngineResult("world", [Segment(5000, 15000, "world")], Some("en")))
    ensures ChunkWindows(2700000, 30 * MsPerMinute) == [Window(0, 1800000), Window(1800000, 2700000)]
    ensures TranscribeAudio(2700000, 30, Some("auto"), engine) == Success(EngineResult(
      "hello\n\nworld",
      [Segment(10000, 20000, "hello"), Segment(1805000, 1815000, "world")],
      Some("en")))
  {
    var ws := ChunkWindows(2700000, 30 * MsPerMinute);
    assert ws == [Window(0, 1800000), Window(1800000, 2700000)];
    var r1 := EngineResult("hello", [Segment(10000, 20000, "hello")], Some("en"));
    var r2 := EngineResult("world", [Segment(5000, 15000, "world")], Some("en"));
    var w1, w2 := Window(0, 1800000), Window(1800000, 2700000);
    assert [w1, w2][1..] == [w2];
    assert [w2][1..] == [];
    assert TranscribeChunks([], None, engine) == Success([]);
    var c2 := TranscribeChunks([w2], None, engine);
    assert c2.Success? && |c2.value| == 1 && c2.value[0] == r2;
    assert c2.value == [r2];
    var c1 := TranscribeChunks([w1, w2], None, engine);
    assert c1.Success? && |c1.value| == 2 && c1.value[0] == r1 && c1.value[1] == r2;
    assert c1.value == [r1, r2];
    assert [r1, r2][..1] == [r1];
    assert [r1][..0] == [];
    assert Texts([r1, r2]) == ["hello", "world"];
    assert ["hello", "world"][1..] == ["world"];
    assert Join(ChunkSeparator, ["hello", "world"]) == "hello\n\nworld";
    assert MergeSegments([r1], 30 * MsPerMinute) == [Segment(10000, 20000, "hello")];
    assert Shift(r2.segments, 1 * (30 * MsPerMinute)) == [Segment(1805000, 1815000, "world")];
    assert MergeSegments([r1, r2], 30 * MsPerMinute)
        == [Segment(10000, 20000, "hello"), Segment(1805000, 1815000, "world")];
    assert MergedLanguage(Some("auto"), [r1, r2]) == Some("en");
  }
}
