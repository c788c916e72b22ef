/** `format_meeting_notes` (web_app.py): a summary, keyword-selected key
    points with a longest-sentence backfill, and action items, all drawn from
    the transcript's sentences. */
module MeetingNotes {
  import opened Common
  import opened Text
  import Chunking

  // ---------------------------------------------------------------------------
  // Input
  // ---------------------------------------------------------------------------

  /** What the formatter may be handed: a plain string, a dict that may carry
      segment texts and/or a `text` entry, or anything else. */
  datatype NotesInput =
    | TextInput(s: string)
    | DictInput(segments: Option<seq<string>>, text: Option<string>)
    | OtherInput

  const InvalidFormat: string := "Invalid transcription format"

  /** The text the notes are made from: segment texts joined by single spaces
      take precedence over the `text` entry. */
  function NotesText(input: NotesInput): (r: Option<string>)
    ensures input.TextInput? ==> r == Some(input.s)
    ensures input.DictInput? && input.segments.Some? ==> r == Some(Join(" ", input.segments.value))
    ensures input.DictInput? && input.segments.None? ==> r == input.text
    ensures input.OtherInput? ==> r.None?
  {
    match input
    case TextInput(s) => Some(s)
    case DictInput(segments, text) =>
      if segments.Some? then Some(Join(" ", segments.value)) else text
    case OtherInput => None
  }

  // ---------------------------------------------------------------------------
  // Summary
  // ---------------------------------------------------------------------------

  const SummaryLength: nat := 200
  const Ellipsis: string := "..."

  /** The first 200 characters, marked with an ellipsis when cut. */
  function Summary(text: string): (r: string)
    ensures |r| <= SummaryLength + |Ellipsis|
    ensures |text| <= SummaryLength ==> r == text
    ensures |text| > SummaryLength ==> |r| == SummaryLength + |Ellipsis| && EndsWith(r, Ellipsis)
    ensures r[..Min(|r|, SummaryLength)] == text[..Min(|text|, SummaryLength)]
  {
    if |text| > SummaryLength then text[..SummaryLength] + Ellipsis else text
  }

  function Min(a: int, b: int): int {
    if a <= b then a else b
  }

  // ---------------------------------------------------------------------------
  // Sentences: re.split(r'(?<=[.!?])\s+', text)
  // ---------------------------------------------------------------------------

  predicate IsTerminal(c: char) {
    c == '.' || c == '!' || c == '?'
  }

  /** A split point: whitespace right after a sentence-ending character. */
  predicate BreakAt(s: string, i: int) {
    0 < i < |s| && IsTerminal(s[i - 1]) && IsSpace(s[i])
  }

  predicate NoBreak(s: string) {
    forall i :: 0 <= i < |s| ==> !BreakAt(s, i)
  }

  predicate AllSpace(s: string) {
    forall i :: 0 <= i < |s| ==> IsSpace(s[i])
  }

  function FirstBreak(s: string, k: nat): (r: Option<nat>)
    ensures r.Some? ==> k <= r.value && BreakAt(s, r.value)
    ensures r.Some? ==> forall j :: k <= j < r.value ==> !BreakAt(s, j)
    ensures r.None? ==> forall j :: k <= j ==> !BreakAt(s, j)
    decreases |s| - k
  {
    if k >= |s| then None
    else if BreakAt(s, k) then Some(k)
    else FirstBreak(s, k + 1)
  }

  /** The end of the whitespace run starting at `i`. */
  function SpaceRun(s: string, i: nat): (j: nat)
    requires i <= |s|
    ensures i <= j <= |s|
    ensures forall k :: i <= k < j ==> IsSpace(s[k])
    ensures j < |s| ==> !IsSpace(s[j])
    decreases |s| - i
  {
    if i == |s| || !IsSpace(s[i]) then i else SpaceRun(s, i + 1)
  }

  /** Sentences alternating with the gaps between them. */
  function Interleave(sentences: seq<string>, gaps: seq<string>): string
    requires |sentences| == |gaps| + 1
    decreases |gaps|
  {
    if |gaps| == 0 then sentences[0]
    else sentences[0] + gaps[0] + Interleave(sentences[1..], gaps[1..])
  }

  /** The pieces of the split and the whitespace runs it removed. */
  datatype Split = Split(sentences: seq<string>, gaps: seq<string>)

  /** `r` splits `s`: putting the gaps back gives `s`; every gap is a
      non-empty whitespace run after a sentence-ending character and before a
      non-space character or the end; no piece contains a split point. */
  ghost predicate SplitOf(r: Split, s: string) {
    && |r.sentences| == |r.gaps| + 1
    && Interleave(r.sentences, r.gaps) == s
    && (forall k :: 0 <= k < |r.gaps| ==> |r.gaps[k]| > 0 && AllSpace(r.gaps[k]))
    && (forall k :: 0 <= k < |r.gaps| ==>
          |r.sentences[k]| > 0 && IsTerminal(r.sentences[k][|r.sentences[k]| - 1]))
    && (forall k :: 1 <= k < |r.sentences| && |r.sentences[k]| > 0 ==> !IsSpace(r.sentences[k][0]))
    && (forall k :: 0 <= k < |r.sentences| ==> NoBreak(r.sentences[k]))
  }

  /** Prefixing a sentence and a gap to a split gives a split. */
  lemma ConsSplit(head: string, gap: string, rest: Split, t: string)
    requires SplitOf(rest, t)
    requires |head| > 0 && IsTerminal(head[|head| - 1]) && NoBreak(head)
    requires |gap| > 0 && AllSpace(gap)
    requires |t| > 0 ==> !IsSpace(t[0])
    ensures SplitOf(Split([head] + rest.sentences, [gap] + rest.gaps), head + gap + t)
  {
    var r := Split([head] + rest.sentences, [gap] + rest.gaps);
    assert r.sentences[1..] == rest.sentences && r.gaps[1..] == rest.gaps;
    assert forall k :: 1 <= k < |r.gaps| ==> r.gaps[k] == rest.gaps[k - 1];
    assert forall k :: 1 <= k < |r.sentences| ==> r.sentences[k] == rest.sentences[k - 1];
    if |rest.gaps| > 0 {
      assert Interleave(rest.sentences, rest.gaps) == rest.sentences[0] + rest.gaps[0]
        + Interleave(rest.sentences[1..], rest.gaps[1..]);
      assert |rest.sentences[0]| > 0;
      assert rest.sentences[0][0] == t[0];
    } else {
      assert rest.sentences[0] == t;
    }
  }

  /** The text before the first split point is a sentence ending in '.', '!'
      or '?', and the whitespace run after it is a gap. */
  lemma FirstSentence(s: string, i: nat, j: nat)
    requires FirstBreak(s, 1) == Some(i)
    requires j == SpaceRun(s, i)
    ensures var head := s[..i];
      && |head| > 0 && IsTerminal(head[|head| - 1]) && NoBreak(head)
    ensures |s[i..j]| > 0 && AllSpace(s[i..j])
    ensures |s[j..]| > 0 ==> !IsSpace(s[j..][0])
    ensures s == s[..i] + s[i..j] + s[j..]
  {
    var head := s[..i];
    forall k | 0 <= k < |head| ensures !BreakAt(head, k) {
      if 1 <= k { assert !BreakAt(s, k); }
    }
  }

  /** Splits at every maximal whitespace run that follows '.', '!' or '?'. */
  function SplitSentences(s: string): (r: Split)
    ensures SplitOf(r, s)
    ensures FirstBreak(s, 1).None? ==> r == Split([s], [])
    decreases |s|
  {
    match FirstBreak(s, 1)
    case None =>
      assert NoBreak(s) by {
        forall i | 0 <= i < |s| ensures !BreakAt(s, i) {
          if i >= 1 { }
        }
      }
      Split([s], [])
    case Some(i) =>
      var j := SpaceRun(s, i);
      var head := s[..i];
      var gap := s[i..j];
      var rest := SplitSentences(s[j..]);
      FirstSentence(s, i, j);
      ConsSplit(head, gap, rest, s[j..]);
      Split([head] + rest.sentences, [gap] + rest.gaps)
  }

  function Sentences(s: string): (r: seq<string>)
    ensures |r| >= 1
  {
    SplitSentences(s).sentences
  }

  // ---------------------------------------------------------------------------
  // Selection
  // ---------------------------------------------------------------------------

  const Keywords: seq<string> :=
    ["important", "key", "must", "should", "need to", "action item",
     "takeaway", "decision", "agreed", "conclusion", "summary"]

  const ActionVerbs: seq<string> :=
    ["will", "shall", "must", "need to", "going to", "plan to",
     "assign", "create", "develop", "implement", "complete"]

  const MinSelectedLength: nat := 20
  const MinBackfillLength: nat := 30
  const WantedKeyPoints: nat := 3
  const MaxListed: nat := 5

  /** Some word of `words` occurs in the lower-cased sentence. */
  predicate MentionsAny(sentence: string, words: seq<string>) {
    exists k :: 0 <= k < |words| && Contains(Lower(sentence), words[k])
  }

  predicate IsKeyPoint(sentence: string) {
    MentionsAny(sentence, Keywords) && |sentence| > MinSelectedLength
  }

  predicate IsActionItem(sentence: string) {
    MentionsAny(sentence, ActionVerbs) && |sentence| > MinSelectedLength
  }

  /** The elements of `s` whose length is `n`, in order. */
  function OfLength(s: seq<string>, n: nat): seq<string> {
    if |s| == 0 then []
    else (if |s[0]| == n then [s[0]] else []) + OfLength(s[1..], n)
  }

  predicate LongestFirst(s: seq<string>) {
    forall i, j :: 0 <= i < j < |s| ==> |s[i]| >= |s[j]|
  }

  /** Places `x` before the first element no longer than it. */
  function InsertByLength(x: string, t: seq<string>): (r: seq<string>)
    ensures |r| == |t| + 1
    ensures multiset(r) == multiset(t) + multiset{x}
    decreases |t|
  {
    if |t| == 0 || |t[0]| <= |x| then [x] + t
    else
      assert t == [t[0]] + t[1..];
      [t[0]] + InsertByLength(x, t[1..])
  }

  /** `sorted(s, key=len, reverse=True)`. */
  function SortLongestFirst(s: seq<string>): (r: seq<string>)
    ensures |r| == |s|
    ensures multiset(r) == multiset(s)
  {
    if |s| == 0 then []
    else
      assert s == [s[0]] + s[1..];
      InsertByLength(s[0], SortLongestFirst(s[1..]))
  }

  /** Inserting an element no longer than `b` into a list of elements no
      longer than `b` keeps every element no longer than `b`. */
  lemma InsertBounded(x: string, t: seq<string>, b: nat)
    requires |x| <= b && forall k :: 0 <= k < |t| ==> |t[k]| <= b
    ensures forall k :: 0 <= k < |InsertByLength(x, t)| ==> |InsertByLength(x, t)[k]| <= b
  {
    var r := InsertByLength(x, t);
    forall k | 0 <= k < |r| ensures |r[k]| <= b {
      assert r[k] in multiset(r);
      if r[k] != x {
        assert r[k] in multiset(t);
        var m :| 0 <= m < |t| && t[m] == r[k];
      }
    }
  }

  lemma {:induction false} InsertKeepsOrder(x: string, t: seq<string>)
    requires LongestFirst(t)
    ensures LongestFirst(InsertByLength(x, t))
    decreases |t|
  {
    var r := InsertByLength(x, t);
    if |t| == 0 || |t[0]| <= |x| {
      forall i, j | 0 <= i < j < |r| ensures |r[i]| >= |r[j]| {
        if i == 0 { assert r[j] == t[j - 1]; } else { assert r[i] == t[i - 1] && r[j] == t[j - 1]; }
      }
    } else {
      var tail := InsertByLength(x, t[1..]);
      InsertKeepsOrder(x, t[1..]);
      InsertBounded(x, t[1..], |t[0]|);
      assert r == [t[0]] + tail;
      forall i, j | 0 <= i < j < |r| ensures |r[i]| >= |r[j]| {
        if i == 0 {
          assert r[j] == tail[j - 1];
        } else {
          assert r[i] == tail[i - 1] && r[j] == tail[j - 1];
        }
      }
    }
  }

  /** Sorting puts longer sentences first. */
  lemma {:induction false} SortIsOrdered(s: seq<string>)
    ensures LongestFirst(SortLongestFirst(s))
  {
    if |s| > 0 {
      SortIsOrdered(s[1..]);
      InsertKeepsOrder(s[0], SortLongestFirst(s[1..]));
    }
  }

  lemma OfLengthCons(h: string, t: seq<string>, n: nat)
    ensures OfLength([h] + t, n) == (if |h| == n then [h] else []) + OfLength(t, n)
  {
    assert ([h] + t)[0] == h && ([h] + t)[1..] == t;
  }

  lemma {:induction false} InsertStable(x: string, t: seq<string>, n: nat)
    ensures OfLength(InsertByLength(x, t), n) == (if |x| == n then [x] else []) + OfLength(t, n)
    decreases |t|
  {
    if |t| == 0 || |t[0]| <= |x| {
      OfLengthCons(x, t, n);
    } else {
      var xs := if |x| == n then [x] else [];
      var ts := if |t[0]| == n then [t[0]] else [];
      var tail := InsertByLength(x, t[1..]);
      assert InsertByLength(x, t) == [t[0]] + tail;
      InsertStable(x, t[1..], n);
      OfLengthCons(t[0], tail, n);
      OfLengthCons(t[0], t[1..], n);
      assert t == [t[0]] + t[1..];
      if |x| == n {
        assert ts == [];
      } else {
        assert xs == [];
      }
    }
  }

  /** Sorting is stable: sentences of equal length keep their order. */
  lemma {:induction false} SortIsStable(s: seq<string>, n: nat)
    ensures OfLength(SortLongestFirst(s), n) == OfLength(s, n)
  {
    if |s| > 0 {
      SortIsStable(s[1..], n);
      InsertStable(s[0], SortLongestFirst(s[1..]), n);
    }
  }

  /** Appends candidates longer than 30 characters that are not yet listed,
      stopping as soon as three points are listed. */
  function Backfill(points: seq<string>, candidates: seq<string>): (r: seq<string>)
    ensures |points| <= |r| && r[..|points|] == points
    ensures |points| < WantedKeyPoints ==> |r| <= WantedKeyPoints
    ensures forall i :: |points| <= i < |r| ==> r[i] in candidates && |r[i]| > MinBackfillLength
    ensures forall j, i :: 0 <= j < i < |r| && |points| <= i ==> r[j] != r[i]
    decreases |candidates|
  {
    if |candidates| == 0 then points
    else
      var c := candidates[0];
      if c !in points && |c| > MinBackfillLength then
        var extended := points + [c];
        if |extended| >= WantedKeyPoints then extended
        else
          var r := Backfill(extended, candidates[1..]);
          BackfillStep(points, candidates, r);
          r
      else Backfill(points, candidates[1..])
  }

  /** Backfill as the candidates arrive one at a time: with fewer than three
      points to start from, no candidates leave the points as they are, and
      a further candidate is appended exactly when fewer than three points
      are listed, it is not among them, and it is longer than 30 characters.
      So the added points are the first long, not yet listed candidates, in
      candidate order. */
  lemma {:induction false} BackfillSnoc(points: seq<string>, candidates: seq<string>, c: string)
    requires |points| < WantedKeyPoints
    ensures Backfill(points, []) == points
    ensures var r := Backfill(points, candidates);
      Backfill(points, candidates + [c])
        == if |r| < WantedKeyPoints && c !in r && |c| > MinBackfillLength then r + [c] else r
    decreases |candidates|
  {
    if |candidates| > 0 {
      var c0 := candidates[0];
      var rest := candidates[1..];
      assert (candidates + [c])[0] == c0 && (candidates + [c])[1..] == rest + [c];
      if c0 !in points && |c0| > MinBackfillLength {
        var extended := points + [c0];
        if |extended| < WantedKeyPoints {
          BackfillSnoc(extended, rest, c);
        }
      } else {
        BackfillSnoc(points, rest, c);
      }
    }
  }

  /** One appended candidate: what the backfill after it promises about the
      longer list carries over to the list before it. */
  lemma BackfillStep(points: seq<string>, candidates: seq<string>, r: seq<string>)
    requires |candidates| > 0 && candidates[0] !in points && |candidates[0]| > MinBackfillLength
    requires |points| + 1 <= |r| && r[..|points| + 1] == points + [candidates[0]]
    requires forall i :: |points| + 1 <= i < |r| ==> r[i] in candidates[1..] && |r[i]| > MinBackfillLength
    requires forall j, i :: 0 <= j < i < |r| && |points| + 1 <= i ==> r[j] != r[i]
    ensures r[..|points|] == points
    ensures forall i :: |points| <= i < |r| ==> r[i] in candidates && |r[i]| > MinBackfillLength
    ensures forall j, i :: 0 <= j < i < |r| && |points| <= i ==> r[j] != r[i]
  {
    assert r[..|points|] == r[..|points| + 1][..|points|];
    assert r[|points|] == candidates[0];
    assert forall j :: 0 <= j < |points| ==> r[j] == points[j];
  }

  /** Backfill stops early only for want of candidates: if fewer than three
      points come out, every long enough candidate is among them. */
  lemma {:induction false} BackfillComplete(points: seq<string>, candidates: seq<string>)
    ensures var r := Backfill(points, candidates);
      |r| < WantedKeyPoints ==> forall c :: c in candidates && |c| > MinBackfillLength ==> c in r
    decreases |candidates|, 1
  {
    if |candidates| > 0 {
      var c := candidates[0];
      if c !in points && |c| > MinBackfillLength {
        BackfillCompleteTaken(points, candidates);
      } else {
        BackfillCompleteSkipped(points, candidates);
      }
    }
  }

  /** The first candidate is appended: it is listed, and the rest are
      covered by the backfill after it. */
  lemma {:induction false} BackfillCompleteTaken(points: seq<string>, candidates: seq<string>)
    requires |candidates| > 0 && candidates[0] !in points && |candidates[0]| > MinBackfillLength
    ensures var r := Backfill(points, candidates);
      |r| < WantedKeyPoints ==> forall c :: c in candidates && |c| > MinBackfillLength ==> c in r
    decreases |candidates|, 0
  {
    var c := candidates[0];
    var rest := candidates[1..];
    var extended := points + [c];
    var r := Backfill(points, candidates);
    if |extended| < WantedKeyPoints {
      assert r == Backfill(extended, rest);
      BackfillComplete(extended, rest);
      assert r[..|extended|] == extended;
      assert r[|points|] == r[..|extended|][|points|] == c;
      assert candidates == [c] + rest;
    }
  }

  /** The first candidate is skipped: it is already listed or too short. */
  lemma {:induction false} BackfillCompleteSkipped(points: seq<string>, candidates: seq<string>)
    requires |candidates| > 0 && (candidates[0] in points || |candidates[0]| <= MinBackfillLength)
    ensures var r := Backfill(points, candidates);
      |r| < WantedKeyPoints ==> forall c :: c in candidates && |c| > MinBackfillLength ==> c in r
    decreases |candidates|, 0
  {
    var c := candidates[0];
    var rest := candidates[1..];
    var r := Backfill(points, candidates);
    assert r == Backfill(points, rest);
    BackfillComplete(points, rest);
    if c in points {
      assert r[..|points|] == points;
      var k :| 0 <= k < |points| && points[k] == c;
      assert r[k] == c;
    }
    assert candidates == [c] + rest;
  }

  /** The key points: keyword sentences, backfilled from the five longest
      sentences when fewer than three were found, at most five listed. */
  function KeyPoints(sentences: seq<string>): (r: seq<string>)
    ensures |r| <= MaxListed
    ensures forall i :: 0 <= i < |r| ==> r[i] in sentences
  {
    var found := Filter(IsKeyPoint, sentences);
    var listed :=
      if |found| < WantedKeyPoints then Backfill(found, Take(SortLongestFirst(sentences), MaxListed))
      else found;
    assert forall i :: 0 <= i < |listed| ==> listed[i] in sentences by {
      forall i | 0 <= i < |listed| ensures listed[i] in sentences {
        if i >= |found| {
          var sorted := SortLongestFirst(sentences);
          assert listed[i] in Take(sorted, MaxListed);
          assert listed[i] in multiset(sorted);
        }
      }
    }
    Take(listed, MaxListed)
  }

  /** The action items are the first five action sentences in transcript
      order: none for no sentences, and a further sentence is appended
      exactly when it names an action and fewer than five are listed. */
  lemma ActionItemsSnoc(sentences: seq<string>, x: string)
    ensures ActionItems([]) == []
    ensures ActionItems(sentences + [x])
      == ActionItems(sentences) + (if IsActionItem(x) && |ActionItems(sentences)| < MaxListed then [x] else [])
  {
    FilterAppend(IsActionItem, sentences, [x]);
    assert Filter(IsActionItem, [x]) == if IsActionItem(x) then [x] else [];
  }

  /** The action items: sentences naming an action verb, at most five. */
  function ActionItems(sentences: seq<string>): (r: seq<string>)
    ensures |r| <= MaxListed
    ensures forall i :: 0 <= i < |r| ==> r[i] in sentences && IsActionItem(r[i])
    ensures |Filter(IsActionItem, sentences)| <= MaxListed ==>
      forall s :: s in sentences && IsActionItem(s) ==> s in r
  {
    Take(Filter(IsActionItem, sentences), MaxListed)
  }

  // ---------------------------------------------------------------------------
  // The notes
  // ---------------------------------------------------------------------------

  datatype Notes = Notes(date: string, summary: string, keyPoints: seq<string>,
                         actionItems: seq<string>, fullTranscript: string)

  /** `format_meeting_notes(transcription)` on day `date`. */
  function FormatMeetingNotes(input: NotesInput, date: string): (r: Result<Notes, string>)
    ensures r.Failure? <==> NotesText(input).None?
    ensures r.Failure? ==> r.error == InvalidFormat
    ensures r.Success? ==>
      && r.value.fullTranscript == NotesText(input).value
      && r.value.date == date
      && r.value.summary == Summary(r.value.fullTranscript)
      && |r.value.keyPoints| <= MaxListed && |r.value.actionItems| <= MaxListed
      && (forall i :: 0 <= i < |r.value.keyPoints| ==>
            r.value.keyPoints[i] in Sentences(r.value.fullTranscript))
      && (forall i :: 0 <= i < |r.value.actionItems| ==>
            r.value.actionItems[i] in Sentences(r.value.fullTranscript)
            && IsActionItem(r.value.actionItems[i]))
  {
    match NotesText(input)
    case None => Failure(InvalidFormat)
    case Some(text) =>
      var sentences := Sentences(text);
      Success(Notes(date, Summary(text), KeyPoints(sentences), ActionItems(sentences), text))
  }

  /** The notes the background worker writes for a transcription result. */
  function NotesOfResult(result: Chunking.EngineResult, date: string): (r: Notes)
    ensures r.fullTranscript == Join(" ", seq(|result.segments|, i requires 0 <= i < |result.segments| => result.segments[i].text))
  {
    var texts := seq(|result.segments|, i requires 0 <= i < |result.segments| => result.segments[i].text);
    FormatMeetingNotes(DictInput(Some(texts), Some(result.text)), date).value
  }

  // ---------------------------------------------------------------------------
  // Properties of the selection
  // ---------------------------------------------------------------------------

  /** With at least three keyword sentences there is no backfill: the key
      points are exactly the first five keyword sentences. */
  lemma EnoughKeywordSentences(sentences: seq<string>)
    requires |Filter(IsKeyPoint, sentences)| >= WantedKeyPoints
    ensures KeyPoints(sentences) == Take(Filter(IsKeyPoint, sentences), MaxListed)
  {
  }

  /** With fewer than three keyword sentences, all of them are kept, no
      point is listed twice beyond them, and every added point is one of the
      five longest sentences and longer than 30 characters. */
  lemma BackfilledKeyPoints(sentences: seq<string>)
    requires |Filter(IsKeyPoint, sentences)| < WantedKeyPoints
    ensures var found := Filter(IsKeyPoint, sentences);
      var r := KeyPoints(sentences);
      && r == Backfill(found, Take(SortLongestFirst(sentences), MaxListed))
      && |r| <= WantedKeyPoints
      && r[..|found|] == found
      && (forall i :: |found| <= i < |r| ==>
            r[i] in Take(SortLongestFirst(sentences), MaxListed) && |r[i]| > MinBackfillLength)
      && (forall j, i :: 0 <= j < i < |r| && |found| <= i ==> r[j] != r[i])
  {
  }

  /** A key point that is not a keyword sentence is no shorter than any
      sentence outside the five longest. */
  lemma {:induction false} BackfillTakesLongest(sentences: seq<string>, x: string, i: nat)
    requires |Filter(IsKeyPoint, sentences)| < WantedKeyPoints
    requires |Filter(IsKeyPoint, sentences)| <= i < |KeyPoints(sentences)|
    requires MaxListed <= |sentences|
    requires x in SortLongestFirst(sentences)[MaxListed..]
    ensures |KeyPoints(sentences)[i]| >= |x|
  {
    var sorted := SortLongestFirst(sentences);
    SortIsOrdered(sentences);
    BackfilledKeyPoints(sentences);
    var y := KeyPoints(sentences)[i];
    assert y in Take(sorted, MaxListed);
    assert Take(sorted, MaxListed) == sorted[..MaxListed];
    HeadNotShorter(sorted, MaxListed, y, x);
  }

  /** In a longest-first list, an element of the first `k` is no shorter
      than one after them. */
  lemma HeadNotShorter(sorted: seq<string>, k: nat, y: string, x: string)
    requires LongestFirst(sorted) && k <= |sorted|
    requires y in sorted[..k] && x in sorted[k..]
    ensures |y| >= |x|
  {
    var a :| 0 <= a < k && sorted[..k][a] == y;
    var b :| 0 <= b < |sorted| - k && sorted[k..][b] == x;
    assert sorted[a] == y && sorted[k + b] == x;
  }
}
