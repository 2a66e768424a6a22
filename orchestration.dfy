/** `Supervisor.check_printer_states` of app/Supervisor.py as a function of
    the printers' states, the devices' answers and the queue's `prints`
    table: what it does to the table and which commands it sends. */
module Orchestration {
  import opened Outcomes
  import opened Octo
  import opened PrintTable
  import opened Gcode
  import opened PrinterState

  /** What the check reads of one Printer object. */
  datatype View = View(state: Option<string>, printerType: string, client: Option<Client>)

  /** The queue's `prints` table and the commands sent so far. */
  datatype World = World(prints: seq<PrintRow>, commands: seq<Command>)

  /** The world after some printers were checked, and the exception that
      stopped the loop, if one did. */
  datatype Step = Step(world: World, error: Option<ErrorKind>)

  /** A positional argument of a Python call. */
  datatype Arg = Text(text: string) | Number(number: int)

  /** The arguments line 161 passes to `mark_complete`: the job id, the
      printer id, the print time and three times the filament length. */
  function CompletionArgs(jobId: string, printerId: int, entry: FileEntry): (args: seq<Arg>)
    requires entry.prints.Some?
    ensures |args| == 4 && args[0] == Text(jobId) && args[1] == Number(printerId)
    ensures args[2] == Number(entry.prints.value.lastPrintTime)
    ensures args[3] == Number(3 * entry.filamentLength)
  {
    [Text(jobId), Number(printerId), Number(entry.prints.value.lastPrintTime), Number(3 * entry.filamentLength)]
  }

  /** How Python binds the arguments of a call to
      `def mark_complete(self, print_id)` in app/QueueInterface.py: exactly
      one argument binds to `print_id`; any other count raises TypeError. */
  function BindMarkComplete(args: seq<Arg>): (r: Result<Arg>)
    ensures r.Ok? <==> |args| == 1
    ensures r.Ok? ==> r.value == args[0]
    ensures r.Raised? ==> r.error == TypeError
  {
    if |args| == 1 then Ok(args[0]) else Raised(TypeError)
  }

  /** `Finish` as line 161 is written: the four-argument call is bound
      before any SQL runs. */
  function FinishAsWritten(workingFolder: string, printerId: int, printerType: string, entry: FileEntry,
                           drive: string -> string, now: int, w: World): Step
  {
    if entry.prints.Some? && entry.prints.value.success then
      var bound := BindMarkComplete(CompletionArgs(JobIdOf(entry.name), printerId, entry));
      if bound.Raised? then Step(w, Some(bound.error))
      else Finish(workingFolder, printerId, printerType, entry, drive, now, w)
    else Finish(workingFolder, printerId, printerType, entry, drive, now, w)
  }

  /** As written, every successful print raises TypeError at line 161: the
      job is not marked Complete, its file is not deleted and no next job is
      started, and since only IndexError is caught the exception leaves
      `check_printer_states`. The corrected `Finish` instead marks the job
      Complete (SuccessfulPrintCompletes). */
  lemma CompletionCallAsWrittenRaises(workingFolder: string, printerId: int, printerType: string, entry: FileEntry,
                                      drive: string -> string, now: int, w: World)
    requires entry.prints.Some? && entry.prints.value.success
    ensures BindMarkComplete(CompletionArgs(JobIdOf(entry.name), printerId, entry)) == Raised(TypeError)
    ensures FinishAsWritten(workingFolder, printerId, printerType, entry, drive, now, w) == Step(w, Some(TypeError))
  {
  }

  /** The duration and material reported for a print of 3600 s using
      1000 mm of filament are 3600 and 3000. */
  lemma CompletionArgsExample()
    ensures var e := FileEntry("5.gcode", Some(PrintStats(true, 3600)), 1000);
            CompletionArgs("5", 2, e) == [Text("5"), Number(2), Number(3600), Number(3000)]
  {
  }

  /** Lines 176-192: fetch the next job of the printer's type; when there is
      one, download it as `<id>.gcode` with the end pause appended, upload,
      move into the working folder, select and print, then mark it Running. */
  function Assign(workingFolder: string, printerId: int, printerType: string,
                  drive: string -> string, now: int, w: World): Step
  {
    var next := NextPrint(w.prints, printerType);
    if next == 0 then Step(w, None)
    else match DownloadName(w.prints, next, Some(GcodeName(next)))
      case None => Step(w, Some(TypeError))   // open(None, 'a')
      case Some(local) =>
        var content := WithEndPause(drive(Lookup(w.prints, next).value.driveFileId));
        var target := WorkingPath(workingFolder, NatToString(next));
        var sent := [Upload(printerId, local, content),
                     Move(printerId, GcodeName(next), target),
                     Select(printerId, target, true)];
        Step(World(MarkedRunning(w.prints, next, printerId, now), w.commands + sent), None)
  }

  /** Lines 158-172: report the first working-folder entry. A success marks
      the job Complete, deletes the file and goes on to assignment; a failure
      marks it Failed, sends the pause job, deletes the file and stops here
      for this printer. The id written into the SQL is the name's prefix. */
  function Finish(workingFolder: string, printerId: int, printerType: string, entry: FileEntry,
                  drive: string -> string, now: int, w: World): Step
  {
    var jobId := JobIdOf(entry.name);
    if entry.prints.None? then Step(w, Some(KeyError))
    else if ParseNat(jobId).None? then Step(w, Some(QueryError))
    else
      var id := ParseNat(jobId).value;
      var gone := Delete(printerId, DeletePath(workingFolder, jobId));
      if entry.prints.value.success then
        var done := World(MarkedFinished(w.prints, id, "Complete", now), w.commands + [gone]);
        Assign(workingFolder, printerId, printerType, drive, now, done)
      else
        var pause := [Upload(printerId, PauseFileName, PauseFile(jobId)),
                      Select(printerId, PauseFileName, true), gone];
        Step(World(MarkedFinished(w.prints, id, "Failed", now), w.commands + pause), None)
  }

  /** The loop body of `check_printer_states` for one printer. Only an
      Operational printer is looked at; an IndexError in the block (an empty
      working folder) leads straight to assignment. */
  function CheckOne(workingFolder: string, printerId: int, v: View, dev: Device,
                    drive: string -> string, now: int, w: World): Step
  {
    if v.state != Some(Operational) then Step(w, None)
    else
      var listing := if v.client.None? then Raised(AttributeError) else dev.folder;
      if listing.Raised? then
        if listing.error == IndexError then Assign(workingFolder, printerId, v.printerType, drive, now, w)
        else Step(w, Some(listing.error))
      else if |listing.value| == 0 then Assign(workingFolder, printerId, v.printerType, drive, now, w)
      else Finish(workingFolder, printerId, v.printerType, listing.value[0], drive, now, w)
  }

  /** `check_printer_states`: the printers in dictionary order, each checked
      against the world the previous ones left, until one raises. */
  function CheckAll(workingFolder: string, ids: seq<int>, views: map<int, View>, fleet: int -> Device,
                    drive: string -> string, now: int, w: World): Step
    requires forall k :: 0 <= k < |ids| ==> ids[k] in views
    decreases |ids|
  {
    if ids == [] then Step(w, None)
    else
      var last := ids[|ids| - 1];
      var before := CheckAll(workingFolder, ids[..|ids| - 1], views, fleet, drive, now, w);
      if before.error.Some? then before
      else CheckOne(workingFolder, last, views[last], fleet(last), drive, now, before.world)
  }

  /** Checking one printer more: the first `n + 1` printers are the first
      `n` followed by printer `ids[n]`. */
  lemma CheckAllSnoc(workingFolder: string, ids: seq<int>, n: nat, views: map<int, View>, fleet: int -> Device,
                     drive: string -> string, now: int, w: World)
    requires n < |ids| && forall k :: 0 <= k < |ids| ==> ids[k] in views
    ensures var before := CheckAll(workingFolder, ids[..n], views, fleet, drive, now, w);
            CheckAll(workingFolder, ids[..n + 1], views, fleet, drive, now, w)
            == if before.error.Some? then before
               else CheckOne(workingFolder, ids[n], views[ids[n]], fleet(ids[n]), drive, now, before.world)
  {
    assert ids[..n + 1][..n] == ids[..n];
  }

  /** An UPDATE of `prints` keeps its shape: same length, same ids in place. */
  ghost predicate SameKeys(a: seq<PrintRow>, b: seq<PrintRow>)
  {
    |a| == |b| && forall k :: 0 <= k < |a| ==> a[k].id == b[k].id
  }

  /** A printer that is not exactly Operational is skipped. */
  lemma OnlyOperationalIsChecked(workingFolder: string, printerId: int, v: View, dev: Device,
                                 drive: string -> string, now: int, w: World)
    requires v.state != Some(Operational)
    ensures CheckOne(workingFolder, printerId, v, dev, drive, now, w) == Step(w, None)
  {
  }

  /** Assignment: with an empty working folder and a queued job of the
      printer's type, the earliest one is marked Running on this printer at
      `now`, and upload, move and select of `<id>.gcode` are sent in order. */
  lemma EmptyFolderStartsEarliest(workingFolder: string, printerId: int, v: View, dev: Device,
                                  drive: string -> string, now: int, w: World)
    requires UniqueIds(w.prints)
    requires v.state == Some(Operational) && v.client.Some? && dev.folder == Ok([])
    requires NextPrint(w.prints, v.printerType) != 0
    ensures var next := NextPrint(w.prints, v.printerType);
            var row := Lookup(w.prints, next).value;
            var target := WorkingPath(workingFolder, NatToString(next));
            && IsCandidate(row, v.printerType)
            && CheckOne(workingFolder, printerId, v, dev, drive, now, w)
               == Step(World(MarkedRunning(w.prints, next, printerId, now),
                             w.commands + [Upload(printerId, GcodeName(next), WithEndPause(drive(row.driveFileId))),
                                           Move(printerId, GcodeName(next), target),
                                           Select(printerId, target, true)]), None)
  {
    var next := NextPrint(w.prints, v.printerType);
    NextPrintIsFifo(w.prints, v.printerType);
    var k :| 0 <= k < |w.prints| && w.prints[k].id == next && IsCandidate(w.prints[k], v.printerType);
    LookupUnique(w.prints, k);
  }

  /** With an empty working folder and no queued job of the printer's type
      nothing happens. */
  lemma EmptyFolderNoJob(workingFolder: string, printerId: int, v: View, dev: Device,
                         drive: string -> string, now: int, w: World)
    requires v.state == Some(Operational) && v.client.Some? && dev.folder == Ok([])
    requires forall k :: 0 <= k < |w.prints| ==> !IsCandidate(w.prints[k], v.printerType)
    ensures CheckOne(workingFolder, printerId, v, dev, drive, now, w) == Step(w, None)
  {
  }

  /** A failed print: the job is marked Failed, the pause job
      (`0.gcode`, "M117 ID#<id> failed", M0, "M117 Idle") is uploaded and
      selected, the failed file is deleted, and no new job is assigned:
      the step ends there, without the `Assign` a successful print gets. */
  lemma FailedPrintSendsPause(workingFolder: string, printerId: int, v: View, dev: Device,
                              drive: string -> string, now: int, w: World, rest: seq<FileEntry>, e: FileEntry)
    requires v.state == Some(Operational) && v.client.Some?
    requires dev.folder == Ok([e] + rest)
    requires e.prints.Some? && !e.prints.value.success
    requires ParseNat(JobIdOf(e.name)).Some?
    ensures var jobId := JobIdOf(e.name);
            CheckOne(workingFolder, printerId, v, dev, drive, now, w)
            == Step(World(MarkedFinished(w.prints, ParseNat(jobId).value, "Failed", now),
                          w.commands + [Upload(printerId, "0.gcode", "\nM117 ID#" + jobId + " failed\nM0\nM117 Idle\n"),
                                        Select(printerId, "0.gcode", true),
                                        Delete(printerId, "local/" + workingFolder + "/" + jobId + ".gcode")]), None)
  {
  }

  /** A successful print: its job is marked Complete, the finished file is
      deleted, and then the next job for the printer's type is assigned as
      on an empty folder; the job stays Complete after that assignment
      (only a Queued job can be picked). */
  lemma SuccessfulPrintCompletes(workingFolder: string, printerId: int, v: View, dev: Device,
                                 drive: string -> string, now: int, w: World, rest: seq<FileEntry>, e: FileEntry)
    requires UniqueIds(w.prints)
    requires v.state == Some(Operational) && v.client.Some?
    requires dev.folder == Ok([e] + rest)
    requires e.prints.Some? && e.prints.value.success
    requires ParseNat(JobIdOf(e.name)).Some? && HasId(w.prints, ParseNat(JobIdOf(e.name)).value)
    ensures var s := CheckOne(workingFolder, printerId, v, dev, drive, now, w);
            var jobId := JobIdOf(e.name);
            && s.error.None?
            && StatusOf(s.world.prints, ParseNat(jobId).value) == Some("Complete")
            && |s.world.commands| > |w.commands|
            && s.world.commands[..|w.commands| + 1]
               == w.commands + [Delete(printerId, DeletePath(workingFolder, jobId))]
            && s == Assign(workingFolder, printerId, v.printerType, drive, now,
                           World(MarkedFinished(w.prints, ParseNat(jobId).value, "Complete", now),
                                 w.commands + [Delete(printerId, DeletePath(workingFolder, jobId))]))
  {
    var jobId := JobIdOf(e.name);
    var id := ParseNat(jobId).value;
    var change := (row: PrintRow) => row.(finishTime := Some(now), status := "Complete");
    var done := World(MarkedFinished(w.prints, id, "Complete", now), w.commands + [Delete(printerId, DeletePath(workingFolder, jobId))]);
    LookupAfterUpdate(w.prints, id, change, id);
    UpdateKeepsIds(w.prints, id, change);
    assert StatusOf(done.prints, id) == Some("Complete");
    var next := NextPrint(done.prints, v.printerType);
    if next != 0 {
      NextPrintIsFifo(done.prints, v.printerType);
      var k :| 0 <= k < |done.prints| && done.prints[k].id == next && IsCandidate(done.prints[k], v.printerType);
      LookupUnique(done.prints, k);
      assert next != id;
      var run := (row: PrintRow) =>
        row.(startTime := Some(now), assignedPrinter := Some(printerId), status := "Running");
      LookupAfterUpdate(done.prints, next, run, id);
    }
  }

  /** An UPDATE leaves the keys of the table where they were. */
  lemma UpdateSameKeys(rows: seq<PrintRow>, id: int, change: PrintRow -> PrintRow)
    requires forall row :: change(row).id == row.id
    ensures SameKeys(rows, UpdateWhere(rows, id, change))
  {
  }

  /** Checking one printer changes rows of `prints` but never adds, removes
      or re-keys one, and only appends commands. */
  lemma CheckOneKeepsKeys(workingFolder: string, printerId: int, v: View, dev: Device,
                          drive: string -> string, now: int, w: World)
    ensures var s := CheckOne(workingFolder, printerId, v, dev, drive, now, w);
            SameKeys(w.prints, s.world.prints) && w.commands <= s.world.commands
  {
    var s := CheckOne(workingFolder, printerId, v, dev, drive, now, w);
    AssignKeepsKeys(workingFolder, printerId, v.printerType, drive, now, w);
    if v.state == Some(Operational) && v.client.Some? && dev.folder.Ok? && |dev.folder.value| > 0 {
      var e := dev.folder.value[0];
      var jobId := JobIdOf(e.name);
      if e.prints.Some? && ParseNat(jobId).Some? {
        var id := ParseNat(jobId).value;
        var status := if e.prints.value.success then "Complete" else "Failed";
        UpdateSameKeys(w.prints, id, (row: PrintRow) => row.(finishTime := Some(now), status := status));
        if e.prints.value.success {
          var done := World(MarkedFinished(w.prints, id, status, now), w.commands + [Delete(printerId, DeletePath(workingFolder, jobId))]);
          AssignKeepsKeys(workingFolder, printerId, v.printerType, drive, now, done);
        }
      }
    }
  }

  lemma AssignKeepsKeys(workingFolder: string, printerId: int, printerType: string,
                        drive: string -> string, now: int, w: World)
    ensures var s := Assign(workingFolder, printerId, printerType, drive, now, w);
            SameKeys(w.prints, s.world.prints) && w.commands <= s.world.commands
  {
    var next := NextPrint(w.prints, printerType);
    UpdateSameKeys(w.prints, next, (row: PrintRow) =>
      row.(startTime := Some(now), assignedPrinter := Some(printerId), status := "Running"));
  }

  /** A whole check keeps the table's keys (so the primary key stays
      unique) and only appends to the commands sent. */
  lemma {:induction false} CheckAllKeepsKeys(workingFolder: string, ids: seq<int>, views: map<int, View>,
                                             fleet: int -> Device, drive: string -> string, now: int, w: World)
    requires forall k :: 0 <= k < |ids| ==> ids[k] in views
    ensures var s := CheckAll(workingFolder, ids, views, fleet, drive, now, w);
            SameKeys(w.prints, s.world.prints) && w.commands <= s.world.commands
    ensures UniqueIds(w.prints) ==> UniqueIds(CheckAll(workingFolder, ids, views, fleet, drive, now, w).world.prints)
    decreases |ids|
  {
    if ids != [] {
      var last := ids[|ids| - 1];
      CheckAllKeepsKeys(workingFolder, ids[..|ids| - 1], views, fleet, drive, now, w);
      var before := CheckAll(workingFolder, ids[..|ids| - 1], views, fleet, drive, now, w);
      CheckOneKeepsKeys(workingFolder, last, views[last], fleet(last), drive, now, before.world);
    }
  }

  /** Every Running job was assigned to a printer of its own type. */
  ghost predicate RunningOnMatchingType(prints: seq<PrintRow>, views: map<int, View>)
  {
    forall k :: 0 <= k < |prints| && prints[k].status == "Running" && prints[k].assignedPrinter.Some?
                && prints[k].assignedPrinter.value in views ==>
                  prints[k].printerType == views[prints[k].assignedPrinter.value].printerType
  }

  lemma AssignKeepsTypes(workingFolder: string, printerId: int, views: map<int, View>,
                         drive: string -> string, now: int, w: World)
    requires UniqueIds(w.prints)
    requires printerId in views && RunningOnMatchingType(w.prints, views)
    ensures RunningOnMatchingType(
              Assign(workingFolder, printerId, views[printerId].printerType, drive, now, w).world.prints, views)
  {
    var t := views[printerId].printerType;
    var next := NextPrint(w.prints, t);
    if next != 0 {
      NextPrintIsFifo(w.prints, t);
      var j :| 0 <= j < |w.prints| && w.prints[j].id == next && IsCandidate(w.prints[j], t);
      var after := MarkedRunning(w.prints, next, printerId, now);
      forall k | 0 <= k < |after| && after[k].status == "Running" && after[k].assignedPrinter.Some?
                 && after[k].assignedPrinter.value in views
        ensures after[k].printerType == views[after[k].assignedPrinter.value].printerType
      {
        MarkedRunningRow(w.prints, next, printerId, now, k);
        if w.prints[k].id == next {
          assert k == j;
        }
      }
    }
  }

  lemma {:induction false} CheckOneKeepsTypes(workingFolder: string, printerId: int, views: map<int, View>,
                                              dev: Device, drive: string -> string, now: int, w: World)
    requires UniqueIds(w.prints)
    requires printerId in views && RunningOnMatchingType(w.prints, views)
    ensures RunningOnMatchingType(CheckOne(workingFolder, printerId, views[printerId], dev, drive, now, w).world.prints, views)
  {
    var v := views[printerId];
    AssignKeepsTypes(workingFolder, printerId, views, drive, now, w);
    if v.state == Some(Operational) && v.client.Some? && dev.folder.Ok? && |dev.folder.value| > 0 {
      var e := dev.folder.value[0];
      var jobId := JobIdOf(e.name);
      if e.prints.Some? && ParseNat(jobId).Some? {
        var id := ParseNat(jobId).value;
        var status := if e.prints.value.success then "Complete" else "Failed";
        var done := World(MarkedFinished(w.prints, id, status, now), w.commands + [Delete(printerId, DeletePath(workingFolder, jobId))]);
        UpdateKeepsIds(w.prints, id, (row: PrintRow) => row.(finishTime := Some(now), status := status));
        forall k | 0 <= k < |done.prints|
          ensures done.prints[k].status == "Running" ==> done.prints[k] == w.prints[k]
        {
          MarkedFinishedRow(w.prints, id, status, now, k);
        }
        assert RunningOnMatchingType(done.prints, views);
        AssignKeepsTypes(workingFolder, printerId, views, drive, now, done);
      }
    }
  }

  /** The check only ever hands a job to a printer of the job's type: if
      every Running job matched its printer before, every one does after. */
  lemma {:induction false} CheckAllKeepsTypes(workingFolder: string, ids: seq<int>, views: map<int, View>,
                                              fleet: int -> Device, drive: string -> string, now: int, w: World)
    requires forall k :: 0 <= k < |ids| ==> ids[k] in views
    requires UniqueIds(w.prints) && RunningOnMatchingType(w.prints, views)
    ensures RunningOnMatchingType(CheckAll(workingFolder, ids, views, fleet, drive, now, w).world.prints, views)
    decreases |ids|
  {
    if ids != [] {
      var last := ids[|ids| - 1];
      CheckAllKeepsTypes(workingFolder, ids[..|ids| - 1], views, fleet, drive, now, w);
      CheckAllKeepsKeys(workingFolder, ids[..|ids| - 1], views, fleet, drive, now, w);
      var before := CheckAll(workingFolder, ids[..|ids| - 1], views, fleet, drive, now, w);
      CheckOneKeepsTypes(workingFolder, last, views, fleet(last), drive, now, before.world);
    }
  }

  /** When a job is found, `Assign` sends its three commands and marks it
      Running; otherwise it changes nothing. */
  lemma AssignCases(workingFolder: string, printerId: int, printerType: string,
                    drive: string -> string, now: int, w: World)
    ensures var next := NextPrint(w.prints, printerType);
            var s := Assign(workingFolder, printerId, printerType, drive, now, w);
            && (next == 0 ==> s == Step(w, None))
            && (next != 0 ==> HasId(w.prints, next))
            && (next != 0 ==>
                  var target := WorkingPath(workingFolder, NatToString(next));
                  s == Step(World(MarkedRunning(w.prints, next, printerId, now),
                                  w.commands + [Upload(printerId, GcodeName(next),
                                                       WithEndPause(drive(Lookup(w.prints, next).value.driveFileId))),
                                                Move(printerId, GcodeName(next), target),
                                                Select(printerId, target, true)]), None))
  {
    var next := NextPrint(w.prints, printerType);
    if next != 0 {
      var e := Earliest(w.prints, printerType).value;
      var k :| 0 <= k < |w.prints| && w.prints[k] == e;
      assert HasId(w.prints, next);
    }
  }

  /** The queue of the two-job scenario: jobs 1 and 2 of type "A", job 1
      added first. */
  function TwoJobs(): (r: seq<PrintRow>)
    ensures UniqueIds(r) && |r| == 2 && r[0].id == 1 && r[1].id == 2
  {
    [PrintRow(1, "Queued", "A", 0, None, None, None, "d1", "one.gcode"),
     PrintRow(2, "Queued", "A", 1, None, None, None, "d2", "two.gcode")]
  }

  /** The first cycle of the scenario: printer 1 finds its folder empty and
      takes job 1, the earlier one. */
  lemma FirstCycleStartsEarlierJob(workingFolder: string, client: Client, fleet: int -> Device,
                                   drive: string -> string, now: int)
    requires fleet(1) == Device(None, Ok(Status(Operational)), Ok([]))
    ensures var first := CheckAll(workingFolder, [1], map[1 := View(Some(Operational), "A", Some(client))],
                                  fleet, drive, now, World(TwoJobs(), []));
            && first.error.None?
            && first.world.prints == MarkedRunning(TwoJobs(), 1, 1, now)
  {
    var rows := TwoJobs();
    var v := View(Some(Operational), "A", Some(client));
    assert [1][..0] == [];
    assert CheckAll(workingFolder, [1], map[1 := v], fleet, drive, now, World(rows, []))
           == CheckOne(workingFolder, 1, v, fleet(1), drive, now, World(rows, []));
    assert Earliest(rows, "A") == Some(rows[0]) by {
      assert Earliest(rows[1..], "A") == Some(rows[1]);
    }
    EmptyFolderStartsEarliest(workingFolder, 1, v, fleet(1), drive, now, World(rows, []));
  }

  /** The next cycle of the scenario: the forced update reads "Printing",
      so printer 1 is not checked and nothing changes. */
  lemma BusyPrinterIsLeftAlone(workingFolder: string, client: Client, fleet: int -> Device, drive: string -> string,
                               now: int, url: Option<string>, apiKey: Option<string>, w: World)
    requires fleet(1) == Device(None, Ok(Status("Printing")), Ok([]))
    ensures var state := UpdateState(Conn(Some(Operational), Some(client)), url, apiKey, true, fleet(1)).conn.state;
            && state == Some("Printing")
            && CheckAll(workingFolder, [1], map[1 := View(state, "A", Some(client))], fleet, drive, now, w) == Step(w, None)
  {
    var state := UpdateState(Conn(Some(Operational), Some(client)), url, apiKey, true, fleet(1)).conn.state;
    assert state == Some("Printing");
    var u := View(state, "A", Some(client));
    assert [1][..0] == [];
    assert CheckAll(workingFolder, [1], map[1 := u], fleet, drive, now, w)
           == CheckOne(workingFolder, 1, u, fleet(1), drive, now, w);
  }

  /** One idle Operational printer (id 1, type "A") and two queued jobs of
      type "A", job 1 added before job 2. The first cycle starts job 1 on
      printer 1 and leaves job 2 Queued; on the next cycle the printer
      reports "Printing", so the check leaves both jobs as they are. */
  lemma TwoJobScenario(workingFolder: string, client: Client, fleet: int -> Device, nextFleet: int -> Device,
                       drive: string -> string, now: int, later: int, url: Option<string>, apiKey: Option<string>)
    requires fleet(1) == Device(None, Ok(Status(Operational)), Ok([]))
    requires nextFleet(1) == Device(None, Ok(Status("Printing")), Ok([]))
    ensures var first := CheckAll(workingFolder, [1], map[1 := View(Some(Operational), "A", Some(client))],
                                  fleet, drive, now, World(TwoJobs(), []));
            var state := UpdateState(Conn(Some(Operational), Some(client)), url, apiKey, true, nextFleet(1)).conn.state;
            var second := CheckAll(workingFolder, [1], map[1 := View(state, "A", Some(client))],
                                   nextFleet, drive, later, first.world);
            && first.error.None?
            && StatusOf(first.world.prints, 1) == Some("Running")
            && Lookup(first.world.prints, 1).value.assignedPrinter == Some(1)
            && StatusOf(first.world.prints, 2) == Some("Queued")
            && second == Step(first.world, None)
  {
    var rows := TwoJobs();
    FirstCycleStartsEarlierJob(workingFolder, client, fleet, drive, now);
    var first := CheckAll(workingFolder, [1], map[1 := View(Some(Operational), "A", Some(client))],
                          fleet, drive, now, World(rows, []));
    var after := MarkedRunning(rows, 1, 1, now);
    MarkedRunningRow(rows, 1, 1, now, 0);
    MarkedRunningRow(rows, 1, 1, now, 1);
    assert after[0].id == 1 && after[1].id == 2;
    BusyPrinterIsLeftAlone(workingFolder, client, nextFleet, drive, later, url, apiKey, first.world);
  }
}
