/** The `prints` and `printers` tables of the queue database, held in memory
    as sequences of rows in storage order, and the queries and updates that
    app/QueueInterface.py and QueueInterface.py run over them. */
module PrintTable {
  import opened Outcomes

  /** One row of `prints`. Times are clock readings; `added` orders the queue. */
  datatype PrintRow = PrintRow(
    id: nat,
    status: string,
    printerType: string,
    added: int,
    startTime: Option<int>,
    finishTime: Option<int>,
    assignedPrinter: Option<int>,
    driveFileId: string,
    gcodeFilename: string)

  /** One row of `printers`, as `get_all_printer_details` selects it:
      id, name, type, ip address, api key (the last two may be NULL). */
  datatype PrinterRow = PrinterRow(
    id: int,
    name: string,
    printerType: string,
    address: Option<string>,
    apiKey: Option<string>)

  /** `id` is the primary key of `prints`. */
  predicate UniqueIds(rows: seq<PrintRow>)
  {
    forall i, j :: 0 <= i < j < |rows| ==> rows[i].id != rows[j].id
  }

  /** The ids of the rows that have an api key: the printers
      `refresh_printers` registers. */
  function KeyedIds(rows: seq<PrinterRow>): set<int>
  {
    if |rows| == 0 then {}
    else KeyedIds(rows[..|rows| - 1]) + (if rows[|rows| - 1].apiKey.Some? then {rows[|rows| - 1].id} else {})
  }

  /** An id is registered exactly when some row with an api key carries it. */
  lemma {:induction false} KeyedIdsMembers(rows: seq<PrinterRow>)
    ensures forall id :: id in KeyedIds(rows) <==> exists row :: row in rows && row.apiKey.Some? && row.id == id
  {
    if |rows| > 0 {
      var init := rows[..|rows| - 1];
      KeyedIdsMembers(init);
      assert forall row :: row in rows <==> row in init || row == rows[|rows| - 1];
    }
  }

  /** `id` is the primary key of `printers`. */
  predicate UniquePrinterIds(rows: seq<PrinterRow>)
  {
    forall i, j :: 0 <= i < j < |rows| ==> rows[i].id != rows[j].id
  }

  predicate HasId(rows: seq<PrintRow>, id: int)
  {
    exists i :: 0 <= i < |rows| && rows[i].id == id
  }

  /** `SELECT ... FROM prints WHERE id = <id>` with `fetchone`: the first row
      with that id, or nothing. */
  function Lookup(rows: seq<PrintRow>, id: int): (r: Option<PrintRow>)
    ensures r.None? <==> !HasId(rows, id)
    ensures r.Some? ==> r.value in rows && r.value.id == id
  {
    if rows == [] then None
    else if rows[0].id == id then Some(rows[0])
    else
      var rest := Lookup(rows[1..], id);
      assert HasId(rows, id) ==> HasId(rows[1..], id) by {
        if HasId(rows, id) {
          var i :| 0 <= i < |rows| && rows[i].id == id;
          assert i > 0 && rows[1..][i - 1].id == id;
        }
      }
      assert HasId(rows[1..], id) ==> HasId(rows, id) by {
        if HasId(rows[1..], id) {
          var i :| 0 <= i < |rows[1..]| && rows[1..][i].id == id;
          assert rows[i + 1].id == id;
        }
      }
      rest
  }

  /** With unique ids, the row Lookup finds is the row with that id. */
  lemma LookupUnique(rows: seq<PrintRow>, k: nat)
    requires UniqueIds(rows) && k < |rows|
    ensures Lookup(rows, rows[k].id) == Some(rows[k])
  {
    var r := Lookup(rows, rows[k].id);
    var j :| 0 <= j < |rows| && rows[j] == r.value;
    assert j == k;
  }

  /** `get_status`: the status of row `id`, or None when there is no such row. */
  function StatusOf(rows: seq<PrintRow>, id: int): Option<string>
  {
    match Lookup(rows, id)
    case None => None
    case Some(row) => Some(row.status)
  }

  /** A row the FIFO query may choose for a printer type. */
  predicate IsCandidate(row: PrintRow, printerType: string)
  {
    row.status == "Queued" && row.printerType == printerType
  }

  /** `WHERE print status = 'Queued' AND printer type = t ORDER BY added ASC
      LIMIT 1`: a candidate with the least `added`. SQL leaves ties open; this
      model takes the first such row in storage order. */
  function Earliest(rows: seq<PrintRow>, printerType: string): (r: Option<PrintRow>)
    ensures r.Some? ==> r.value in rows && IsCandidate(r.value, printerType)
    ensures r.Some? ==> forall q :: q in rows && IsCandidate(q, printerType) ==> r.value.added <= q.added
    ensures r.None? ==> forall q :: q in rows ==> !IsCandidate(q, printerType)
  {
    if rows == [] then None
    else
      var rest := Earliest(rows[1..], printerType);
      assert forall q :: q in rows ==> q == rows[0] || q in rows[1..];
      if IsCandidate(rows[0], printerType) && (rest.None? || rows[0].added <= rest.value.added)
      then Some(rows[0])
      else rest
  }

  /** `get_next_print`: the id of the earliest queued job of the type, or 0. */
  function NextPrint(rows: seq<PrintRow>, printerType: string): nat
  {
    match Earliest(rows, printerType)
    case None => 0
    case Some(row) => row.id
  }

  /** FIFO selection: a nonzero result names a queued job of the requested
      type whose `added` is the least among all such jobs. */
  lemma NextPrintIsFifo(rows: seq<PrintRow>, printerType: string)
    requires UniqueIds(rows)
    requires NextPrint(rows, printerType) != 0
    ensures exists k :: 0 <= k < |rows| && rows[k].id == NextPrint(rows, printerType)
                        && IsCandidate(rows[k], printerType)
    ensures forall k :: 0 <= k < |rows| && IsCandidate(rows[k], printerType) ==>
              Lookup(rows, NextPrint(rows, printerType)).value.added <= rows[k].added
  {
    var row := Earliest(rows, printerType).value;
    var k :| 0 <= k < |rows| && rows[k] == row;
    LookupUnique(rows, k);
    assert NextPrint(rows, printerType) == rows[k].id;
    forall j | 0 <= j < |rows| && IsCandidate(rows[j], printerType)
      ensures row.added <= rows[j].added
    {
      assert rows[j] in rows;
    }
  }

  /** The sentinel 0 is returned exactly when no job of the type is queued
      (job ids start at 1, as AUTO_INCREMENT keys do). */
  lemma NextPrintZero(rows: seq<PrintRow>, printerType: string)
    requires forall k :: 0 <= k < |rows| ==> rows[k].id > 0
    ensures NextPrint(rows, printerType) == 0 <==>
            forall k :: 0 <= k < |rows| ==> !IsCandidate(rows[k], printerType)
  {
    var e := Earliest(rows, printerType);
    if e.Some? {
      var k :| 0 <= k < |rows| && rows[k] == e.value;
    } else {
      assert forall k :: 0 <= k < |rows| ==> rows[k] in rows;
    }
  }

  /** FIFO order between two queued jobs of one type: a job added strictly
      earlier than another is chosen before it, never the later one. */
  lemma FifoOrder(rows: seq<PrintRow>, printerType: string, a: nat, b: nat)
    requires UniqueIds(rows)
    requires a < |rows| && b < |rows|
    requires IsCandidate(rows[a], printerType) && IsCandidate(rows[b], printerType)
    requires rows[a].added < rows[b].added
    ensures NextPrint(rows, printerType) != rows[b].id
  {
    var e := Earliest(rows, printerType);
    assert rows[a] in rows;
    var k :| 0 <= k < |rows| && rows[k] == e.value;
  }

  /** SQL `UPDATE prints SET ... WHERE id = <id>`: every row with that id is
      changed by `change`, every other row is kept. */
  function UpdateWhere(rows: seq<PrintRow>, id: int, change: PrintRow -> PrintRow): (r: seq<PrintRow>)
    ensures |r| == |rows|
    ensures forall k :: 0 <= k < |rows| ==> r[k] == if rows[k].id == id then change(rows[k]) else rows[k]
  {
    if rows == [] then []
    else [if rows[0].id == id then change(rows[0]) else rows[0]] + UpdateWhere(rows[1..], id, change)
  }

  /** `update_status`: SET print status. */
  function WithStatus(rows: seq<PrintRow>, id: int, status: string): seq<PrintRow>
  {
    UpdateWhere(rows, id, (row: PrintRow) => row.(status := status))
  }

  /** `mark_running` in app/QueueInterface.py: SET start time, assigned
      printer and status 'Running'. */
  function MarkedRunning(rows: seq<PrintRow>, id: int, printerId: int, now: int): seq<PrintRow>
  {
    UpdateWhere(rows, id, (row: PrintRow) =>
      row.(startTime := Some(now), assignedPrinter := Some(printerId), status := "Running"))
  }

  /** `mark_failed` / `mark_complete`: SET finish time and a final status. */
  function MarkedFinished(rows: seq<PrintRow>, id: int, status: string, now: int): seq<PrintRow>
  {
    UpdateWhere(rows, id, (row: PrintRow) => row.(finishTime := Some(now), status := status))
  }

  /** An UPDATE keeps every id in place, so the key stays unique. */
  lemma UpdateKeepsIds(rows: seq<PrintRow>, id: int, change: PrintRow -> PrintRow)
    requires forall row :: change(row).id == row.id
    ensures forall k :: 0 <= k < |rows| ==> UpdateWhere(rows, id, change)[k].id == rows[k].id
    ensures UniqueIds(rows) ==> UniqueIds(UpdateWhere(rows, id, change))
  {
  }

  /** What an UPDATE of row `id` does to `Lookup`: the row with that id is
      changed, the row of any other id is as it was. */
  lemma {:induction false} LookupAfterUpdate(rows: seq<PrintRow>, id: int, change: PrintRow -> PrintRow, other: int)
    requires forall row :: change(row).id == row.id
    ensures other == id && Lookup(rows, id).Some? ==>
              Lookup(UpdateWhere(rows, id, change), id) == Some(change(Lookup(rows, id).value))
    ensures other != id ==> Lookup(UpdateWhere(rows, id, change), other) == Lookup(rows, other)
    ensures Lookup(rows, other).None? <==> Lookup(UpdateWhere(rows, id, change), other).None?
  {
    if rows != [] {
      var r := UpdateWhere(rows, id, change);
      assert r[1..] == UpdateWhere(rows[1..], id, change);
      LookupAfterUpdate(rows[1..], id, change, other);
    }
  }

  /** After `update_status(id, s)` on an existing row, `get_status(id)` is
      `s`; other rows keep their status; a missing row stays missing. */
  lemma StatusAfterUpdate(rows: seq<PrintRow>, id: int, status: string, other: int)
    ensures HasId(rows, id) ==> StatusOf(WithStatus(rows, id, status), id) == Some(status)
    ensures other != id ==> StatusOf(WithStatus(rows, id, status), other) == StatusOf(rows, other)
    ensures !HasId(rows, id) ==> StatusOf(WithStatus(rows, id, status), id).None?
  {
    LookupAfterUpdate(rows, id, (row: PrintRow) => row.(status := status), id);
    LookupAfterUpdate(rows, id, (row: PrintRow) => row.(status := status), other);
  }

  /** `mark_running` changes only row `id`, and on that row only its status,
      start time and assigned printer. */
  lemma MarkedRunningRow(rows: seq<PrintRow>, id: int, printerId: int, now: int, k: nat)
    requires k < |rows|
    ensures var r := MarkedRunning(rows, id, printerId, now)[k];
            if rows[k].id == id
            then r.status == "Running" && r.startTime == Some(now) && r.assignedPrinter == Some(printerId)
                 && r.(status := rows[k].status, startTime := rows[k].startTime,
                       assignedPrinter := rows[k].assignedPrinter) == rows[k]
            else r == rows[k]
  {
  }

  /** `mark_failed` and `mark_complete` change only row `id`, setting its
      status and finish time whatever status it had before: the table does
      not enforce Queued, Running, then Complete or Failed. */
  lemma MarkedFinishedRow(rows: seq<PrintRow>, id: int, status: string, now: int, k: nat)
    requires k < |rows|
    ensures var r := MarkedFinished(rows, id, status, now)[k];
            if rows[k].id == id
            then r.status == status && r.finishTime == Some(now)
                 && r.(status := rows[k].status, finishTime := rows[k].finishTime) == rows[k]
            else r == rows[k]
  {
  }

  /** A job already Complete can be marked Failed again: no transition is
      refused by the table. */
  lemma FinishedNotMonotonic(now: int)
    ensures var rows := [PrintRow(1, "Complete", "A", 0, Some(0), Some(0), Some(7), "f", "a.gcode")];
            StatusOf(MarkedFinished(rows, 1, "Failed", now), 1) == Some("Failed")
  {
    var rows := [PrintRow(1, "Complete", "A", 0, Some(0), Some(0), Some(7), "f", "a.gcode")];
    LookupAfterUpdate(rows, 1, (row: PrintRow) => row.(finishTime := Some(now), status := "Failed"), 1);
  }

  /** The name `download_file` saves a job under: None when the id has no
      row, else the override when one is given, else the stored filename. */
  function DownloadName(rows: seq<PrintRow>, id: int, filenameOverride: Option<string>): (r: Option<string>)
    ensures r.None? <==> !HasId(rows, id)
    ensures r.Some? && filenameOverride.Some? ==> r == filenameOverride
    ensures r.Some? && filenameOverride.None? ==> r == Some(Lookup(rows, id).value.gcodeFilename)
  {
    match Lookup(rows, id)
    case None => None
    case Some(row) => if filenameOverride.Some? then filenameOverride else Some(row.gcodeFilename)
  }

  /** `get_valid_printers`: the loop over `SELECT type FROM printers` that
      adds each type to a set. */
  method CollectTypes(printers: seq<PrinterRow>) returns (types: set<string>)
    ensures forall t :: t in types <==> exists k :: 0 <= k < |printers| && printers[k].printerType == t
  {
    types := {};
    for i := 0 to |printers|
      invariant forall t :: t in types <==> exists k :: 0 <= k < i && printers[k].printerType == t
    {
      types := types + {printers[i].printerType};
    }
  }
}
