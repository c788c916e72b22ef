/** The front end's transcription store
    (frontend/src/store/slices/transcriptionSlice.ts): its reducers and the
    actions each thunk dispatches. Records and results have the shapes the
    API returns. */
module TranscriptionSlice {
  import opened Common
  import opened Thunks
  import Models
  import TranscriptionsRouter

  type Item = Models.Transcription
  type ResultView = TranscriptionsRouter.ResultView

  datatype State = State(
    transcriptions: seq<Item>,
    current: Option<Item>,
    currentResult: Option<ResultView>,
    isLoading: bool,
    error: Option<string>,
    uploadProgress: int)

  const Initial: State := State([], None, None, false, None, 0)

  /** The five thunks. */
  datatype Thunk = FetchAll | FetchOne | FetchResult | Upload | Delete

  datatype Action =
    | SetUploadProgress(progress: int)
    | ClearCurrentTranscription
    | ClearError
    | Pending(thunk: Thunk)
    | Rejected(thunk: Thunk, message: string)
    | FetchAllFulfilled(items: seq<Item>)
    | FetchOneFulfilled(item: Item)
    | FetchResultFulfilled(result: ResultView)
    | UploadFulfilled(item: Item)
    | DeleteFulfilled(id: int)

  /** `transcriptions.filter(t => t.id !== id)`. */
  function WithoutId(items: seq<Item>, id: int): (r: seq<Item>)
    ensures |r| <= |items|
    ensures forall i :: 0 <= i < |r| ==> r[i].id != id && r[i] in items
    ensures forall i :: 0 <= i < |items| && items[i].id != id ==> items[i] in r
  {
    if |items| == 0 then []
    else (if items[0].id != id then [items[0]] else []) + WithoutId(items[1..], id)
  }

  /** The slice reducer. */
  function Reduce(s: State, a: Action): (r: State)
    ensures a.SetUploadProgress? ==> r == s.(uploadProgress := a.progress)
    ensures a.ClearCurrentTranscription? ==> r == s.(current := None, currentResult := None)
    ensures a.ClearError? ==> r == s.(error := None)
    ensures a.Pending? ==>
      && r.isLoading && r.error.None?
      && r.transcriptions == s.transcriptions && r.current == s.current && r.currentResult == s.currentResult
      && r.uploadProgress == (if a.thunk == Upload then 0 else s.uploadProgress)
    ensures a.Rejected? ==>
      && !r.isLoading && r.error == Some(a.message)
      && r.transcriptions == s.transcriptions && r.current == s.current && r.currentResult == s.currentResult
      && r.uploadProgress == (if a.thunk == Upload then 0 else s.uploadProgress)
    ensures a.FetchAllFulfilled? ==> r == s.(isLoading := false, transcriptions := a.items)
    ensures a.FetchOneFulfilled? ==> r == s.(isLoading := false, current := Some(a.item))
    ensures a.FetchResultFulfilled? ==> r == s.(isLoading := false, currentResult := Some(a.result))
    ensures !(a.SetUploadProgress? || a.ClearCurrentTranscription? || a.ClearError?) ==>
      r.isLoading == a.Pending?
    ensures !a.Pending? && !a.Rejected? && !a.ClearError? ==> r.error == s.error
  {
    match a
    case SetUploadProgress(p) => s.(uploadProgress := p)
    case ClearCurrentTranscription => s.(current := None, currentResult := None)
    case ClearError => s.(error := None)
    case Pending(t) =>
      var r := s.(isLoading := true, error := None);
      if t == Upload then r.(uploadProgress := 0) else r
    case Rejected(t, m) =>
      var r := s.(isLoading := false, error := Some(m));
      if t == Upload then r.(uploadProgress := 0) else r
    case FetchAllFulfilled(items) => s.(isLoading := false, transcriptions := items)
    case FetchOneFulfilled(item) => s.(isLoading := false, current := Some(item))
    case FetchResultFulfilled(res) => s.(isLoading := false, currentResult := Some(res))
    case UploadFulfilled(item) =>
      s.(isLoading := false, uploadProgress := 100, transcriptions := [item] + s.transcriptions,
         current := Some(item))
    case DeleteFulfilled(id) =>
      var r := s.(isLoading := false, transcriptions := WithoutId(s.transcriptions, id));
      if s.current.Some? && s.current.value.id == id then r.(current := None, currentResult := None)
      else r
  }

  function ReduceAll(s: State, actions: seq<Action>): State
    decreases |actions|
  {
    if |actions| == 0 then s else ReduceAll(Reduce(s, actions[0]), actions[1..])
  }

  /** A successful upload puts the new record first, keeps the others in
      order, makes it current and shows 100%. */
  lemma UploadPrepends(s: State, item: Item)
    ensures var r := Reduce(s, UploadFulfilled(item));
      && |r.transcriptions| == |s.transcriptions| + 1
      && r.transcriptions[0] == item && r.transcriptions[1..] == s.transcriptions
      && r.current == Some(item) && r.uploadProgress == 100 && !r.isLoading
      && r.currentResult == s.currentResult && r.error == s.error
  {
  }

  /** A deletion removes exactly the records with that id and clears the
      current record and result only when the current record has that id. */
  lemma DeleteRemovesExactly(s: State, id: int)
    ensures var r := Reduce(s, DeleteFulfilled(id));
      && (forall i :: 0 <= i < |r.transcriptions| ==> r.transcriptions[i].id != id)
      && (forall t :: t in s.transcriptions && t.id != id ==> t in r.transcriptions)
      && (s.current.Some? && s.current.value.id == id ==> r.current.None? && r.currentResult.None?)
      && (!(s.current.Some? && s.current.value.id == id) ==>
            r.current == s.current && r.currentResult == s.currentResult)
      && r.uploadProgress == s.uploadProgress && r.error == s.error
  {
    var r := Reduce(s, DeleteFulfilled(id));
    forall t | t in s.transcriptions && t.id != id ensures t in r.transcriptions {
      var i :| 0 <= i < |s.transcriptions| && s.transcriptions[i] == t;
    }
  }

  lemma {:induction false} WithoutIdConcat(a: seq<Item>, b: seq<Item>, id: int)
    ensures WithoutId(a + b, id) == WithoutId(a, id) + WithoutId(b, id)
  {
    if |a| == 0 {
      assert a + b == b;
    } else {
      assert (a + b)[1..] == a[1..] + b;
      WithoutIdConcat(a[1..], b, id);
    }
  }

  /** Deletion keeps the survivors in their original order: splitting the
      list anywhere and deleting from each part gives the same result. */
  lemma DeleteKeepsOrder(s: State, id: int, k: nat)
    requires k <= |s.transcriptions|
    ensures Reduce(s, DeleteFulfilled(id)).transcriptions
      == WithoutId(s.transcriptions[..k], id) + WithoutId(s.transcriptions[k..], id)
  {
    var t := s.transcriptions;
    assert Reduce(s, DeleteFulfilled(id)).transcriptions == WithoutId(t, id);
    assert t == t[..k] + t[k..];
    WithoutIdConcat(t[..k], t[k..], id);
  }

  /** Deleting an id that is not present changes only the loading flag. */
  lemma {:induction false} WithoutAbsentId(items: seq<Item>, id: int)
    requires forall i :: 0 <= i < |items| ==> items[i].id != id
    ensures WithoutId(items, id) == items
  {
    if |items| > 0 {
      WithoutAbsentId(items[1..], id);
      assert items == [items[0]] + items[1..];
    }
  }

  // ---------------------------------------------------------------------------
  // Thunks
  // ---------------------------------------------------------------------------

  function Fallback(t: Thunk): string {
    match t
    case FetchAll => "Failed to fetch transcriptions"
    case FetchOne => "Failed to fetch transcription"
    case FetchResult => "Failed to fetch transcription result"
    case Upload => "Failed to upload transcription"
    case Delete => "Failed to delete transcription"
  }

  /** `Math.round(loaded * 100 / total)` for a positive total. */
  function ProgressPercent(loaded: nat, total: nat): (p: int)
    requires total > 0
    ensures 2 * p * total <= 200 * loaded + total < 2 * p * total + 2 * total
  {
    (200 * loaded + total) / (2 * total)
  }

  /** `a * t < b * t` with a positive `t` orders `a` and `b`. */
  lemma CancelFactor(a: int, b: int, t: int)
    requires t > 0 && a * t < b * t
    ensures a < b
  {
    assert (b - a) * t > 0;
  }

  /** Progress reports of a request whose size is known lie between 0 and
      100, and reach both ends. */
  lemma ProgressBounds(loaded: nat, total: nat)
    requires 0 < total && loaded <= total
    ensures 0 <= ProgressPercent(loaded, total) <= 100
    ensures loaded == total ==> ProgressPercent(loaded, total) == 100
    ensures loaded == 0 ==> ProgressPercent(loaded, total) == 0
  {
    var p := ProgressPercent(loaded, total);
    CancelFactor(-1, 2 * p, total);
    CancelFactor(2 * p, 202, total);
    if loaded == total {
      CancelFactor(199, 2 * p, total);
    }
    if loaded == 0 {
      CancelFactor(2 * p, 1, total);
    }
  }

  /** A progress report from the upload request. */
  datatype ProgressEvent = ProgressEvent(loaded: nat, total: nat)

  /** `if (progressEvent.total)`: the report's size is known. */
  predicate Known(e: ProgressEvent) {
    e.total > 0
  }

  /** Only reports with a known (non-zero) total are dispatched, each as the
      rounded percentage it reports, in the order the reports arrive. */
  function ProgressActions(events: seq<ProgressEvent>): (r: seq<Action>)
    ensures |r| == |Filter(Known, events)|
    ensures forall i :: 0 <= i < |r| ==>
      var e := Filter(Known, events)[i];
      r[i] == SetUploadProgress(ProgressPercent(e.loaded, e.total))
    decreases |events|
  {
    if |events| == 0 then []
    else
      var e := events[0];
      (if e.total > 0 then [SetUploadProgress(ProgressPercent(e.loaded, e.total))] else [])
      + ProgressActions(events[1..])
  }

  /** A thunk call with its argument and what its request settles to: the
      response data on success, or the failure. The two single-record
      fetches take an id that only chooses the URL. The upload reports
      progress while it runs. A deletion's response carries nothing the
      thunk uses: it returns its own argument. */
  datatype Call =
    | FetchAllCall(items: Outcome<seq<Item>>)
    | FetchOneCall(item: Outcome<Item>)
    | FetchResultCall(result: Outcome<ResultView>)
    | UploadCall(events: seq<ProgressEvent>, created: Outcome<Item>)
    | DeleteCall(id: int, deleted: Outcome<()>)

  function ThunkOf(c: Call): Thunk {
    match c
    case FetchAllCall(_) => FetchAll
    case FetchOneCall(_) => FetchOne
    case FetchResultCall(_) => FetchResult
    case UploadCall(_, _) => Upload
    case DeleteCall(_, _) => Delete
  }

  /** The fulfilled action of a successful request, or its failure. */
  function Settled(c: Call): Outcome<Action> {
    match c
    case FetchAllCall(o) => if o.Success? then Success(FetchAllFulfilled(o.value)) else Failure(o.error)
    case FetchOneCall(o) => if o.Success? then Success(FetchOneFulfilled(o.value)) else Failure(o.error)
    case FetchResultCall(o) => if o.Success? then Success(FetchResultFulfilled(o.value)) else Failure(o.error)
    case UploadCall(_, o) => if o.Success? then Success(UploadFulfilled(o.value)) else Failure(o.error)
    case DeleteCall(id, o) => if o.Success? then Success(DeleteFulfilled(id)) else Failure(o.error)
  }

  /** The actions a thunk call dispatches: pending, then (with a token) any
      upload progress and the request's outcome, or (without one)
      rejection with "No authentication token" and no request at all. */
  function ThunkActions(c: Call, token: Option<string>): (r: seq<Action>)
    ensures |r| >= 2 && r[0] == Pending(ThunkOf(c))
    ensures !HasToken(token) ==> r == [Pending(ThunkOf(c)), Rejected(ThunkOf(c), NoToken)]
    ensures HasToken(token) ==>
      r[1..|r| - 1] == if c.UploadCall? then ProgressActions(c.events) else []
    ensures HasToken(token) && c.FetchAllCall? && c.items.Success? ==>
      r[|r| - 1] == FetchAllFulfilled(c.items.value)
    ensures HasToken(token) && c.FetchOneCall? && c.item.Success? ==>
      r[|r| - 1] == FetchOneFulfilled(c.item.value)
    ensures HasToken(token) && c.FetchResultCall? && c.result.Success? ==>
      r[|r| - 1] == FetchResultFulfilled(c.result.value)
    ensures HasToken(token) && c.UploadCall? && c.created.Success? ==>
      r[|r| - 1] == UploadFulfilled(c.created.value)
    ensures HasToken(token) && c.DeleteCall? && c.deleted.Success? ==>
      r[|r| - 1] == DeleteFulfilled(c.id)
    ensures HasToken(token) && Settled(c).Failure? ==>
      r[|r| - 1] == Rejected(ThunkOf(c), RejectMessage(Settled(c).error, Fallback(ThunkOf(c))))
  {
    var t := ThunkOf(c);
    if !HasToken(token) then [Pending(t), Rejected(t, NoToken)]
    else
      var progress := if c.UploadCall? then ProgressActions(c.events) else [];
      var last := match Settled(c)
        case Success(a) => a
        case Failure(f) => Rejected(t, RejectMessage(f, Fallback(t)));
      [Pending(t)] + progress + [last]
  }

  lemma {:induction false} ProgressOnlyTouchesProgress(s: State, events: seq<ProgressEvent>)
    ensures ReduceAll(s, ProgressActions(events)).(uploadProgress := s.uploadProgress) == s
    decreases |events|
  {
    if |events| > 0 {
      var acts := ProgressActions(events);
      var rest := ProgressActions(events[1..]);
      if events[0].total > 0 {
        assert acts[1..] == rest;
        ProgressOnlyTouchesProgress(Reduce(s, acts[0]), events[1..]);
      } else {
        assert acts == rest;
        ProgressOnlyTouchesProgress(s, events[1..]);
      }
    }
  }

  lemma {:induction false} ReduceAllConcat(s: State, a: seq<Action>, b: seq<Action>)
    ensures ReduceAll(s, a + b) == ReduceAll(ReduceAll(s, a), b)
    decreases |a|
  {
    if |a| == 0 {
      assert a + b == b;
    } else {
      assert (a + b)[1..] == a[1..] + b;
      ReduceAllConcat(Reduce(s, a[0]), a[1..], b);
    }
  }

  /** Without a token a thunk leaves the data alone and ends with the
      "No authentication token" error and loading off. */
  lemma NoTokenRun(s: State, c: Call)
    ensures var r := ReduceAll(s, ThunkActions(c, None));
      && r.error == Some(NoToken) && !r.isLoading
      && r.transcriptions == s.transcriptions && r.current == s.current
      && r.currentResult == s.currentResult
  {
    var t := ThunkOf(c);
    var acts := ThunkActions(c, None);
    var s1 := Reduce(s, Pending(t));
    assert ReduceAll(s, acts) == ReduceAll(s1, acts[1..]);
    assert ReduceAll(s1, acts[1..]) == ReduceAll(Reduce(s1, Rejected(t, NoToken)), []) by {
      assert acts[1..][1..] == [];
    }
  }

  /** A successful upload run: whatever progress was reported, the store
      ends with the new record first and current, at 100%, not loading and
      without an error. */
  lemma UploadRun(s: State, token: string, events: seq<ProgressEvent>, item: Item)
    requires token != ""
    ensures var r := ReduceAll(s, ThunkActions(UploadCall(events, Success(item)), Some(token)));
      && r.transcriptions == [item] + s.transcriptions && r.current == Some(item)
      && r.uploadProgress == 100 && !r.isLoading && r.error.None?
      && r.currentResult == s.currentResult
  {
    var p := ProgressActions(events);
    var s1 := Reduce(s, Pending(Upload));
    UploadActions(token, events, item);
    ReduceAllConcat(s, [Pending(Upload)] + p, [UploadFulfilled(item)]);
    ReduceAllConcat(s, [Pending(Upload)], p);
    assert ReduceAll(s, [Pending(Upload)]) == s1 by {
      assert [Pending(Upload)][1..] == [];
    }
    ProgressOnlyTouchesProgress(s1, events);
    var s2 := ReduceAll(s1, p);
    assert ReduceAll(s2, [UploadFulfilled(item)]) == Reduce(s2, UploadFulfilled(item)) by {
      assert [UploadFulfilled(item)][1..] == [];
    }
  }

  /** A successful upload dispatches pending, its progress actions, then the
      new record. */
  lemma UploadActions(token: string, events: seq<ProgressEvent>, item: Item)
    requires token != ""
    ensures ThunkActions(UploadCall(events, Success(item)), Some(token))
      == [Pending(Upload)] + ProgressActions(events) + [UploadFulfilled(item)]
  {
  }

  /** A successful deletion run removes exactly the records with the
      thunk's own id, ends loading and shows no error. */
  lemma DeleteRun(s: State, token: string, id: int)
    requires token != ""
    ensures var r := ReduceAll(s, ThunkActions(DeleteCall(id, Success(())), Some(token)));
      && r.transcriptions == WithoutId(s.transcriptions, id)
      && !r.isLoading && r.error.None? && r.uploadProgress == s.uploadProgress
  {
    var acts := ThunkActions(DeleteCall(id, Success(())), Some(token));
    assert acts == [Pending(Delete), DeleteFulfilled(id)];
    var s1 := Reduce(s, Pending(Delete));
    assert ReduceAll(s1, [DeleteFulfilled(id)]) == Reduce(s1, DeleteFulfilled(id)) by {
      assert [DeleteFulfilled(id)][1..] == [];
    }
    assert acts[1..] == [DeleteFulfilled(id)];
  }

  /** A successful fetch run stores the fetched list, record or result in
      its own field, ends loading and shows no error. */
  lemma FetchRun(s: State, token: string, c: Call)
    requires token != ""
    requires c.FetchAllCall? || c.FetchOneCall? || c.FetchResultCall?
    requires Settled(c).Success?
    ensures var r := ReduceAll(s, ThunkActions(c, Some(token)));
      && !r.isLoading && r.error.None?
      && (c.FetchAllCall? ==> r.transcriptions == c.items.value && r.current == s.current)
      && (c.FetchOneCall? ==> r.current == Some(c.item.value) && r.transcriptions == s.transcriptions)
      && (c.FetchResultCall? ==> r.currentResult == Some(c.result.value) && r.current == s.current)
  {
    var acts := ThunkActions(c, Some(token));
    assert acts == [Pending(ThunkOf(c)), Settled(c).value];
    var s1 := Reduce(s, Pending(ThunkOf(c)));
    assert ReduceAll(s1, [Settled(c).value]) == Reduce(s1, Settled(c).value) by {
      assert [Settled(c).value][1..] == [];
    }
    assert acts[1..] == [Settled(c).value];
  }
}
