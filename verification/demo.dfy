/** The stand-alone demo server (simple_web_demo.py): the sample listing,
    the canned transcriptions, and the parser that digs the transcript out of
    the command-line recogniser's printed output. Directory listing, the
    subprocess and the sleep are not modelled; their results are inputs. */
module Demo {
  import opened Common
  import opened Text

  // ---------------------------------------------------------------------------
  // Sample listing
  // ---------------------------------------------------------------------------

  const SampleExtensions: seq<string> := [".wav", ".mp3", ".ogg", ".flac"]

  /** `filename.endswith(('.wav', '.mp3', '.ogg', '.flac'))`. */
  predicate IsSample(name: string) {
    exists k :: 0 <= k < |SampleExtensions| && EndsWith(name, SampleExtensions[k])
  }

  datatype Sample = Sample(name: string, path: string)

  /** The `/samples` listing of the directory entries `names`. */
  function ListSamples(names: seq<string>): (r: seq<Sample>)
    ensures |r| <= |names|
    ensures forall i :: 0 <= i < |r| ==> IsSample(r[i].name) && r[i].name in names
    ensures forall i :: 0 <= i < |r| ==> r[i].path == "/samples/" + r[i].name
    ensures forall i :: 0 <= i < |names| && IsSample(names[i]) ==> Sample(names[i], "/samples/" + names[i]) in r
  {
    if |names| == 0 then []
    else
      var rest := ListSamples(names[1..]);
      if IsSample(names[0]) then [Sample(names[0], "/samples/" + names[0])] + rest else rest
  }

  // ---------------------------------------------------------------------------
  // Canned transcriptions
  // ---------------------------------------------------------------------------

  /** A segment with its bounds in seconds. */
  datatype Segment = Segment(start: real, end: real, text: string)

  datatype Response = Response(text: string, language: string, processingTime: real, segments: seq<Segment>)

  /** A response whose single segment, starting at 0, carries the whole text. */
  function OneSegment(text: string, processingTime: real, end: real): Response {
    Response(text, "en", processingTime, [Segment(0.0, end, text)])
  }

  const Canned: map<string, Response> := map[
    "smoke_test.wav" := OneSegment("The quick brown fox jumps over the lazy dog.", 2.1, 2.5),
    "LDC93S1.wav" := OneSegment("She had your dark suit in greasy wash water all year.", 1.8, 3.2)
  ]

  const DefaultResponse: Response :=
    OneSegment("This is a simulated transcription for demonstration purposes.", 2.0, 3.0)

  /** `/transcribe`: the canned response for a known sample name, the default
      one for any other name or none. */
  function Transcribe(sampleName: Option<string>): (r: Response)
    ensures sampleName.Some? && sampleName.value in Canned ==> r == Canned[sampleName.value]
    ensures sampleName.None? || sampleName.value !in Canned ==> r == DefaultResponse
  {
    match sampleName
    case Some(n) => if n in Canned then Canned[n] else DefaultResponse
    case None => DefaultResponse
  }

  /** Every response of `/transcribe` is English with one segment from 0
      holding the whole text. */
  lemma TranscribeShape(sampleName: Option<string>)
    ensures var r := Transcribe(sampleName);
      r.language == "en" && |r.segments| == 1 && r.segments[0].start == 0.0
      && r.segments[0].text == r.text && r.segments[0].end > 0.0
  {
  }

  // ---------------------------------------------------------------------------
  // Parsing the recogniser's output
  // ---------------------------------------------------------------------------

  const Marker: string := "Transcription:"
  const EndMarker: string := "END_TRANSCRIPTION"
  const Dashes: string := "--------------"
  const NotFound: string := "Transcription not found in output"

  /** The fallback delimiters, in the order they are tried. */
  const Delimiters: seq<string> := ["===", "---", "\n\n"]

  /** The transcript printed between the end of the first marker and the end
      marker, or failing that the first fallback delimiter present, or the
      end of the section; the section ends at the second marker. */
  function ParseTranscript(output: string): (r: string)
    ensures !Contains(output, Marker) ==> r == NotFound
    ensures |r| > 0 ==> !IsSpace(r[0]) && !IsSpace(r[|r| - 1])
  {
    if !Contains(output, Marker) then NotFound else ParseSection(SecondPart(output, Marker))
  }

  /** The transcript within the section that follows the marker. */
  function ParseSection(part: string): (r: string)
    ensures |r| > 0 ==> !IsSpace(r[0]) && !IsSpace(r[|r| - 1])
  {
    if Contains(part, EndMarker) then Strip(RemoveAll(Strip(Before(part, EndMarker)), Dashes))
    else if Contains(part, Delimiters[0]) then Strip(Before(part, Delimiters[0]))
    else if Contains(part, Delimiters[1]) then Strip(Before(part, Delimiters[1]))
    else if Contains(part, Delimiters[2]) then Strip(Before(part, Delimiters[2]))
    else Strip(part)
  }

  /** `/run_whisper`'s reply: the canned-response fields, plus the captured
      console output echoed back. */
  datatype RunReply = RunReply(response: Response, commandOutput: string)

  /** `/run_whisper`'s reply for the captured output; the processing time
      read from the output is an input. */
  function RunWhisperResponse(output: string, processingTime: real): (r: RunReply)
    ensures r.response.text == ParseTranscript(output) && r.response.language == "en"
    ensures r.response.processingTime == processingTime
    ensures r.response.segments == [Segment(0.0, 3.0, r.response.text)]
    ensures r.commandOutput == output
  {
    RunReply(OneSegment(ParseTranscript(output), processingTime, 3.0), output)
  }

  /** A pattern whose first character does not occur again in it can first
      occur in `a + p + b` only at `|a|` when it does not occur in `a`. */
  lemma FirstOccurrence(a: string, p: string, b: string)
    requires |p| > 0 && forall k :: 0 < k < |p| ==> p[k] != p[0]
    requires !Contains(a, p)
    ensures IndexOf(a + p + b, p) == Some(|a|)
    ensures Before(a + p + b, p) == a && After(a + p + b, p) == b
  {
    var s := a + p + b;
    assert s[|a|..|a| + |p|] == p;
    assert OccursAt(s, p, |a|);
    forall j | 0 <= j < |a|
      ensures !OccursAt(s, p, j)
    {
      if j + |p| <= |a| {
        assert s[j..j + |p|] == a[j..j + |p|];
        assert !OccursAt(a, p, j);
      } else {
        var k := |a| - j;
        assert s[j..j + |p|][k] == p[0] != p[k];
      }
    }
    assert s[|a| + |p|..] == b;
  }

  lemma MarkersStartUniquely()
    ensures forall k :: 0 < k < |Marker| ==> Marker[k] != Marker[0]
    ensures forall k :: 0 < k < |EndMarker| ==> EndMarker[k] != EndMarker[0]
  {
  }

  /** When the output holds one marker, then the body and the end marker, the
      parser returns the body with the dash rules removed, stripped. */
  lemma ParseEndMarked(pre: string, body: string, post: string)
    requires !Contains(pre, Marker)
    requires !Contains(body + EndMarker + post, Marker)
    requires !Contains(body, EndMarker)
    ensures ParseTranscript(pre + Marker + body + EndMarker + post)
      == Strip(RemoveAll(Strip(body), Dashes))
  {
    MarkersStartUniquely();
    var output := pre + Marker + (body + EndMarker + post);
    assert pre + Marker + body + EndMarker + post == output;
    FirstOccurrence(pre, Marker, body + EndMarker + post);
    assert Contains(output, Marker);
    var part := SecondPart(output, Marker);
    assert part == body + EndMarker + post;
    FirstOccurrence(body, EndMarker, post);
    assert Contains(part, EndMarker);
  }

  /** A transcript printed between the markers comes back unchanged when it
      has no surrounding whitespace and no dash rule. */
  lemma ParseEndMarkedRoundTrip(pre: string, t: string, post: string)
    requires !Contains(pre, Marker)
    requires !Contains(t + EndMarker + post, Marker)
    requires !Contains(t, EndMarker) && !Contains(t, Dashes)
    requires |t| > 0 && !IsSpace(t[0]) && !IsSpace(t[|t| - 1])
    ensures ParseTranscript(pre + Marker + t + EndMarker + post) == t
  {
    ParseEndMarked(pre, t, post);
  }

  /** With no end marker and no fallback delimiter, the parser returns the
      whole text after the marker, stripped. */
  lemma ParseUndelimited(pre: string, t: string)
    requires !Contains(pre, Marker) && !Contains(t, Marker)
    requires !Contains(t, EndMarker)
    requires forall k :: 0 <= k < |Delimiters| ==> !Contains(t, Delimiters[k])
    ensures ParseTranscript(pre + Marker + t) == Strip(t)
  {
    MarkersStartUniquely();
    FirstOccurrence(pre, Marker, t);
    assert Contains(pre + Marker + t, Marker);
    assert SecondPart(pre + Marker + t, Marker) == t;
  }

  /** Whatever follows a second marker is ignored. */
  lemma SecondMarkerEndsSection(pre: string, part: string, rest: string)
    requires !Contains(pre, Marker) && !Contains(part, Marker)
    ensures ParseTranscript(pre + Marker + part + Marker + rest) == ParseSection(part)
  {
    MarkersStartUniquely();
    var output := pre + Marker + (part + Marker + rest);
    assert pre + Marker + part + Marker + rest == output;
    FirstOccurrence(pre, Marker, part + Marker + rest);
    FirstOccurrence(part, Marker, rest);
    assert Contains(output, Marker);
  }

  /** With a single marker, the parser reads the whole text after it. */
  lemma SectionAfterMarker(pre: string, part: string)
    requires !Contains(pre, Marker) && !Contains(part, Marker)
    ensures ParseTranscript(pre + Marker + part) == ParseSection(part)
  {
    MarkersStartUniquely();
    FirstOccurrence(pre, Marker, part);
    assert Contains(pre + Marker + part, Marker);
    assert SecondPart(pre + Marker + part, Marker) == part;
  }

  /** A delimiter made of one repeated character first occurs in `a + d + b`
      right after `a` when `a` neither contains it nor ends with that
      character. */
  lemma FirstRunOccurrence(a: string, d: string, b: string)
    requires |d| > 0 && forall k :: 0 <= k < |d| ==> d[k] == d[0]
    requires !Contains(a, d) && (|a| == 0 || a[|a| - 1] != d[0])
    ensures Before(a + d + b, d) == a
  {
    var s := a + d + b;
    assert s[|a|..|a| + |d|] == d;
    assert OccursAt(s, d, |a|);
    forall j | 0 <= j < |a|
      ensures !OccursAt(s, d, j)
    {
      if j + |d| <= |a| {
        assert s[j..j + |d|] == a[j..j + |d|];
        assert !OccursAt(a, d, j);
      } else {
        var k := |a| - 1 - j;
        assert s[j..j + |d|][k] == a[|a| - 1];
      }
    }
    var r := Before(s, d);
    assert |r| == |a|;
    assert r == s[..|a|] == a;
  }

  /** Without an end marker, "===" is tried first: the text before the first
      "===" is taken, stripped, even when it holds "---" or a blank line. */
  lemma ParseEqualsDelimited(pre: string, t: string, post: string)
    requires !Contains(pre, Marker) && !Contains(t + "===" + post, Marker)
    requires !Contains(t + "===" + post, EndMarker)
    requires !Contains(t, "===") && (|t| == 0 || t[|t| - 1] != '=')
    ensures ParseTranscript(pre + Marker + t + "===" + post) == Strip(t)
  {
    var part := t + "===" + post;
    assert pre + Marker + t + "===" + post == pre + Marker + part;
    FirstRunOccurrence(t, "===", post);
    SectionAfterMarker(pre, part);
    assert Contains(part, "===") by {
      assert OccursAt(part, "===", |t|);
    }
    FirstDelimiterSection(part);
  }

  /** A section without an end marker that holds "===" ends at its first
      "===". */
  lemma FirstDelimiterSection(part: string)
    requires !Contains(part, EndMarker) && Contains(part, "===")
    ensures ParseSection(part) == Strip(Before(part, "==="))
  {
    assert Delimiters[0] == "===";
  }

  /** Without an end marker or "===", "---" comes next: the text before the
      first "---" is taken, stripped, even when it holds a blank line. */
  lemma ParseDashDelimited(pre: string, t: string, post: string)
    requires !Contains(pre, Marker) && !Contains(t + "---" + post, Marker)
    requires !Contains(t + "---" + post, EndMarker) && !Contains(t + "---" + post, "===")
    requires !Contains(t, "---") && (|t| == 0 || t[|t| - 1] != '-')
    ensures ParseTranscript(pre + Marker + t + "---" + post) == Strip(t)
  {
    var part := t + "---" + post;
    assert pre + Marker + t + "---" + post == pre + Marker + part;
    FirstRunOccurrence(t, "---", post);
    SectionAfterMarker(pre, part);
    assert OccursAt(part, "---", |t|);
  }

  /** A blank line is the last delimiter tried: with no end marker, "===" or
      "---", the text before the first blank line is taken, stripped. */
  lemma ParseBlankLineDelimited(pre: string, t: string, post: string)
    requires !Contains(pre, Marker) && !Contains(t + "\n\n" + post, Marker)
    requires !Contains(t + "\n\n" + post, EndMarker)
    requires !Contains(t + "\n\n" + post, "===") && !Contains(t + "\n\n" + post, "---")
    requires !Contains(t, "\n\n") && (|t| == 0 || t[|t| - 1] != '\n')
    ensures ParseTranscript(pre + Marker + t + "\n\n" + post) == Strip(t)
  {
    var part := t + "\n\n" + post;
    assert pre + Marker + t + "\n\n" + post == pre + Marker + part;
    FirstRunOccurrence(t, "\n\n", post);
    SectionAfterMarker(pre, part);
    assert OccursAt(part, "\n\n", |t|);
  }
}
