/** The MariaDB-backed queue of app/QueueInterface.py, with the database
    replaced by its two tables held in fields. `CURRENT_TIMESTAMP` is the
    `now` argument of the updates that use it. */
module Queue {
  import opened Outcomes
  import opened PrintTable

  class QueueInterface {
    var prints: seq<PrintRow>
    var printers: seq<PrinterRow>

    /** The primary keys of `prints` and `printers` hold. */
    ghost predicate Valid()
      reads this
    {
      UniqueIds(prints) && UniquePrinterIds(printers)
    }

    constructor (prints: seq<PrintRow>, printers: seq<PrinterRow>)
      requires UniqueIds(prints) && UniquePrinterIds(printers)
      ensures Valid()
      ensures this.prints == prints && this.printers == printers
    {
      this.prints := prints;
      this.printers := printers;
    }

    /** `get_valid_printers`: the set of `type` values in `printers`. */
    method GetValidPrinters() returns (types: set<string>)
      ensures forall t :: t in types <==> exists row :: row in printers && row.printerType == t
    {
      types := CollectTypes(printers);
      assert forall k :: 0 <= k < |printers| ==> printers[k] in printers;
    }

    /** `get_all_printer_details`: every row of `printers`. */
    function GetAllPrinterDetails(): seq<PrinterRow>
      reads this
    {
      printers
    }

    /** `get_details`: the whole row of `id`, or None. */
    function GetDetails(id: int): (r: Option<PrintRow>)
      reads this
      ensures r.None? <==> !HasId(prints, id)
      ensures r.Some? ==> r.value in prints && r.value.id == id
    {
      Lookup(prints, id)
    }

    /** `get_status`: row `id`'s status, None when there is no such row. */
    function GetStatus(id: int): (r: Option<string>)
      reads this
      ensures r.None? <==> !HasId(prints, id)
      ensures r.Some? ==> exists row :: row in prints && row.id == id && row.status == r.value
    {
      StatusOf(prints, id)
    }

    /** `update_status`: only row `id`'s status changes. */
    method UpdateStatus(id: int, newStatus: string)
      requires Valid()
      modifies this
      ensures Valid() && printers == old(printers)
      ensures prints == WithStatus(old(prints), id, newStatus)
      ensures HasId(old(prints), id) ==> GetStatus(id) == Some(newStatus)
      ensures forall other :: other != id ==> GetStatus(other) == old(GetStatus(other))
    {
      prints := WithStatus(prints, id, newStatus);
      UpdateKeepsIds(old(prints), id, (row: PrintRow) => row.(status := newStatus));
      StatusAfterUpdate(old(prints), id, newStatus, id);
      forall other | other != id
        ensures StatusOf(prints, other) == StatusOf(old(prints), other)
      {
        StatusAfterUpdate(old(prints), id, newStatus, other);
      }
    }

    /** `mark_running(id, printer)`: row `id` becomes Running on `printer`,
        started at `now`; nothing else changes. */
    method MarkRunning(id: int, printerId: int, now: int)
      requires Valid()
      modifies this
      ensures Valid() && printers == old(printers)
      ensures prints == MarkedRunning(old(prints), id, printerId, now)
      ensures HasId(old(prints), id) ==> GetStatus(id) == Some("Running")
    {
      var change := (row: PrintRow) =>
        row.(startTime := Some(now), assignedPrinter := Some(printerId), status := "Running");
      prints := UpdateWhere(prints, id, change);
      UpdateKeepsIds(old(prints), id, change);
      LookupAfterUpdate(old(prints), id, change, id);
    }

    /** `mark_failed(id)`: row `id` becomes Failed, finished at `now`. */
    method MarkFailed(id: int, now: int)
      requires Valid()
      modifies this
      ensures Valid() && printers == old(printers)
      ensures prints == MarkedFinished(old(prints), id, "Failed", now)
      ensures HasId(old(prints), id) ==> GetStatus(id) == Some("Failed")
    {
      MarkFinished(id, "Failed", now);
    }

    /** `mark_complete(id)`: row `id` becomes Complete, finished at `now`. */
    method MarkComplete(id: int, now: int)
      requires Valid()
      modifies this
      ensures Valid() && printers == old(printers)
      ensures prints == MarkedFinished(old(prints), id, "Complete", now)
      ensures HasId(old(prints), id) ==> GetStatus(id) == Some("Complete")
    {
      MarkFinished(id, "Complete", now);
    }

    /** The UPDATE shared by `mark_failed` and `mark_complete`. */
    method MarkFinished(id: int, status: string, now: int)
      requires Valid()
      modifies this
      ensures Valid() && printers == old(printers)
      ensures prints == MarkedFinished(old(prints), id, status, now)
      ensures HasId(old(prints), id) ==> GetStatus(id) == Some(status)
    {
      var change := (row: PrintRow) => row.(finishTime := Some(now), status := status);
      prints := UpdateWhere(prints, id, change);
      UpdateKeepsIds(old(prints), id, change);
      LookupAfterUpdate(old(prints), id, change, id);
    }

    /** `get_next_print(type)`: 0 when no job of the type is queued, else the
        id of a queued job of that type added no later than any other. */
    function GetNextPrint(printerType: string): (r: nat)
      reads this
      ensures r != 0 ==> exists row :: row in prints && row.id == r && IsCandidate(row, printerType)
                          && forall q :: q in prints && IsCandidate(q, printerType) ==> row.added <= q.added
      ensures (forall row :: row in prints ==> !IsCandidate(row, printerType)) ==> r == 0
      ensures r == 0 && (forall row :: row in prints ==> row.id > 0) ==>
                forall row :: row in prints ==> !IsCandidate(row, printerType)
    {
      NextPrint(prints, printerType)
    }

    /** The file name `download_file` writes and returns: None for a
        missing row, the override when given, else the stored name. */
    function DownloadFile(id: int, filenameOverride: Option<string>): (r: Option<string>)
      reads this
      ensures r.None? <==> !HasId(prints, id)
      ensures r.Some? && filenameOverride.Some? ==> r == filenameOverride
      ensures r.Some? && filenameOverride.None? ==> r == Some(GetDetails(id).value.gcodeFilename)
    {
      DownloadName(prints, id, filenameOverride)
    }
  }
}
