/** The earlier queue of QueueInterface.py over the same two tables. It
    differs from app/QueueInterface.py in `mark_running`, which only sets the
    status; it has no `mark_failed` or `mark_complete`. */
module LegacyQueue {
  import opened Outcomes
  import opened PrintTable

  class QueueInterface {
    var prints: seq<PrintRow>
    var printers: seq<PrinterRow>

    ghost predicate Valid()
      reads this
    {
      UniqueIds(prints)
    }

    constructor (prints: seq<PrintRow>, printers: seq<PrinterRow>)
      requires UniqueIds(prints)
      ensures Valid()
      ensures this.prints == prints && this.printers == printers
    {
      this.prints := prints;
      this.printers := printers;
    }

    /** `get_valid_printers`: the set of all printer types. */
    method GetValidPrinters() returns (types: set<string>)
      ensures forall t :: t in types <==> exists k :: 0 <= k < |printers| && printers[k].printerType == t
    {
      types := CollectTypes(printers);
    }

    /** `get_all_printer_details`: every row of `printers`. */
    function GetAllPrinterDetails(): seq<PrinterRow>
      reads this
    {
      printers
    }

    /** `get_status`: the status of the row with that id, None for a missing id. */
    function GetStatus(id: int): (r: Option<string>)
      reads this
      ensures r.None? <==> !HasId(prints, id)
      ensures r.Some? ==> exists k :: 0 <= k < |prints| && prints[k].id == id && prints[k].status == r.value
    {
      var s := StatusOf(prints, id);
      assert s.Some? ==> Lookup(prints, id).value in prints;
      s
    }

    /** `update_status`: only the status of row `id` changes, and a following
        `get_status(id)` returns the new value. */
    method UpdateStatus(id: int, newStatus: string)
      requires Valid()
      modifies this
      ensures Valid() && printers == old(printers)
      ensures prints == WithStatus(old(prints), id, newStatus)
      ensures HasId(old(prints), id) ==> GetStatus(id) == Some(newStatus)
      ensures !HasId(old(prints), id) ==> GetStatus(id) == None
    {
      prints := WithStatus(prints, id, newStatus);
      UpdateKeepsIds(old(prints), id, (row: PrintRow) => row.(status := newStatus));
      StatusAfterUpdate(old(prints), id, newStatus, id);
    }

    /** `mark_running(id)` is `update_status(id, "Running")`: no printer is
        assigned and no time is recorded. */
    method MarkRunning(id: int)
      requires Valid()
      modifies this
      ensures Valid() && printers == old(printers)
      ensures prints == WithStatus(old(prints), id, "Running")
      ensures |prints| == |old(prints)|
      ensures forall k :: 0 <= k < |prints| ==>
                prints[k].assignedPrinter == old(prints)[k].assignedPrinter
                && prints[k].startTime == old(prints)[k].startTime
                && prints[k].finishTime == old(prints)[k].finishTime
    {
      UpdateStatus(id, "Running");
    }

    /** `get_next_print(type)`: a queued row of that type with minimal
        `added`, or 0 when there is none. */
    function GetNextPrint(printerType: string): (r: nat)
      reads this
      ensures r != 0 ==> exists k :: 0 <= k < |prints| && prints[k].id == r && IsCandidate(prints[k], printerType)
                          && forall j :: 0 <= j < |prints| && IsCandidate(prints[j], printerType) ==>
                               prints[k].added <= prints[j].added
      ensures (forall k :: 0 <= k < |prints| ==> !IsCandidate(prints[k], printerType)) ==> r == 0
    {
      var e := Earliest(prints, printerType);
      assert e.Some? ==> exists k :: 0 <= k < |prints| && prints[k] == e.value;
      assert forall j :: 0 <= j < |prints| ==> prints[j] in prints;
      NextPrint(prints, printerType)
    }

    /** The file name `download_file` returns: None for a missing row, else
        the override if given, else the stored gcode filename. */
    function DownloadFile(id: int, filenameOverride: Option<string>): (r: Option<string>)
      reads this
      ensures r.None? <==> !HasId(prints, id)
      ensures r.Some? && filenameOverride.Some? ==> r == filenameOverride
      ensures r.Some? && filenameOverride.None? ==>
                exists k :: 0 <= k < |prints| && prints[k].id == id && r == Some(prints[k].gcodeFilename)
    {
      var n := DownloadName(prints, id, filenameOverride);
      assert n.Some? ==> Lookup(prints, id).value in prints;
      n
    }
  }
}
