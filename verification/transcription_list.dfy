/** The transcriptions table (frontend/src/components/TranscriptionList.tsx):
    the duration display, the status chip colour, which row actions are
    enabled, and the delete confirmation dialog. */
module TranscriptionListView {
  import opened Common
  import opened Text
  import Models
  import RecordForm

  // ---------------------------------------------------------------------------
  // Duration
  // ---------------------------------------------------------------------------

  /** JavaScript's truncation toward zero, which `%` on numbers uses. */
  function Trunc(x: real): (r: int)
    ensures x >= 0.0 ==> r == x.Floor
    ensures x < 0.0 ==> r == -((-x).Floor)
  {
    if x >= 0.0 then x.Floor else -((-x).Floor)
  }

  /** `Math.floor(seconds / 60)` and `Math.floor(seconds % 60)`. For a
      non-negative duration they are the whole minutes and the whole
      seconds left over. */
  function DurationParts(seconds: real): (r: (int, int))
    ensures seconds >= 0.0 ==>
      && 0 <= r.1 < 60 && r.0 >= 0
      && (60 * r.0 + r.1) as real <= seconds < (60 * r.0 + r.1 + 1) as real
    ensures seconds < 0.0 ==> -60 <= r.1 <= 0
  {
    var q := seconds / 60.0;
    var rem := seconds - 60.0 * Trunc(q) as real;
    (q.Floor, rem.Floor)
  }

  /** `formatDuration`. */
  function FormatDuration(seconds: real): string {
    var (m, s) := DurationParts(seconds);
    IntToString(m) + ":" + PadStart(IntToString(s), 2, '0')
  }

  /** On a non-negative duration the display is that of the recording form
      for the whole seconds, so it reads back into them. */
  lemma FormatDurationWhole(seconds: real)
    requires seconds >= 0.0
    ensures FormatDuration(seconds) == RecordForm.FormatTime(seconds.Floor)
    ensures RecordForm.ParseTime(FormatDuration(seconds)) == Some(seconds.Floor)
  {
    var (m, s) := DurationParts(seconds);
    var n: nat := seconds.Floor;
    assert n == 60 * m + s;
    assert n / 60 == m && n % 60 == s;
    RecordForm.FormatTimeRoundTrip(n);
  }

  // ---------------------------------------------------------------------------
  // Rows
  // ---------------------------------------------------------------------------

  /** `getStatusChipColor`. */
  function StatusColor(status: string): (c: string)
    ensures c == "default" <==> status !in {"completed", "processing", "pending", "failed"}
    ensures status == "completed" <==> c == "success"
    ensures status == "failed" <==> c == "error"
    ensures status == "processing" <==> c == "warning"
    ensures status == "pending" <==> c == "info"
  {
    match status
    case "completed" => "success"
    case "processing" => "warning"
    case "pending" => "info"
    case "failed" => "error"
    case _ => "default"
  }

  /** The status a chip colour stands for, if any: the chip alone tells the
      four known statuses apart. */
  function StatusOfColor(c: string): (r: Option<string>)
    ensures r.Some? ==> StatusColor(r.value) == c
  {
    match c
    case "success" => Some("completed")
    case "warning" => Some("processing")
    case "info" => Some("pending")
    case "error" => Some("failed")
    case _ => None
  }

  /** Reading a chip back gives its status exactly for the four known
      statuses; every other status shows the uninformative "default". */
  lemma ColorRoundTrip(status: string)
    ensures StatusOfColor(StatusColor(status))
      == if status in {"completed", "processing", "pending", "failed"} then Some(status) else None
  {
  }

  datatype Row = Row(id: nat, title: string, status: string, color: string, duration: string,
                     language: string, viewEnabled: bool, downloadEnabled: bool, deleteEnabled: bool)

  /** What the component shows: a spinner while loading, an invitation when
      the list is empty, otherwise one row per transcription. */
  datatype View = Spinner | NoTranscriptions | Table(rows: seq<Row>)

  function RowOf(t: Models.Transcription): (r: Row)
    ensures r.id == t.id && r.status == t.status && r.color == StatusColor(t.status)
    ensures r.viewEnabled <==> t.status == "completed"
    ensures r.downloadEnabled <==> t.status == "completed"
    ensures r.deleteEnabled
  {
    Row(t.id, t.title, t.status, StatusColor(t.status), FormatDuration(t.durationSeconds),
        t.languageCode, t.status == "completed", t.status == "completed", true)
  }

  function Render(ts: seq<Models.Transcription>, isLoading: bool): (v: View)
    ensures isLoading <==> v.Spinner?
    ensures v.NoTranscriptions? <==> !isLoading && |ts| == 0
    ensures v.Table? ==> |v.rows| == |ts| && forall i :: 0 <= i < |ts| ==> v.rows[i] == RowOf(ts[i])
  {
    if isLoading then Spinner
    else if |ts| == 0 then NoTranscriptions
    else Table(seq(|ts|, i requires 0 <= i < |ts| => RowOf(ts[i])))
  }

  /** In a rendered table, a row's view and download actions are enabled
      exactly for completed transcriptions, and every row can be deleted. */
  lemma RowActions(ts: seq<Models.Transcription>, i: nat)
    requires i < |ts|
    ensures Render(ts, false).Table?
    ensures var row := Render(ts, false).rows[i];
      && (row.viewEnabled <==> ts[i].status == "completed")
      && (row.downloadEnabled <==> ts[i].status == "completed")
      && row.deleteEnabled && row.color == StatusColor(ts[i].status)
  {
  }

  // ---------------------------------------------------------------------------
  // Delete dialog
  // ---------------------------------------------------------------------------

  datatype Dialog = Dialog(open: bool, target: Option<nat>)

  const Closed: Dialog := Dialog(false, None)

  /** `handleDeleteClick`. */
  function DeleteClick(d: Dialog, id: nat): (r: Dialog)
    ensures r.open && r.target == Some(id)
  {
    Dialog(true, Some(id))
  }

  datatype Confirmation = Confirmation(dialog: Dialog, deleted: Option<nat>)

  /** `handleDeleteConfirm`: deletes the target, if one is set, and closes. */
  function Confirm(d: Dialog): (r: Confirmation)
    ensures r.deleted == d.target
    ensures d.target.Some? ==> r.dialog == Closed
    ensures d.target.None? ==> r.dialog == d
  {
    match d.target
    case Some(id) => Confirmation(Closed, Some(id))
    case None => Confirmation(d, None)
  }

  /** `handleDeleteCancel`. */
  function Cancel(d: Dialog): (r: Dialog)
    ensures !r.open && r.target.None?
  {
    Closed
  }

  /** Clicking delete on a row and confirming deletes exactly that row's
      transcription and closes the dialog; cancelling instead deletes
      nothing. */
  lemma DeleteFlow(d: Dialog, ts: seq<Models.Transcription>, i: nat)
    requires i < |ts|
    ensures Confirm(DeleteClick(d, ts[i].id)) == Confirmation(Closed, Some(ts[i].id))
    ensures Cancel(DeleteClick(d, ts[i].id)) == Closed
  {
  }
}
