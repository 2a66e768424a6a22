/** The `Printer` and `Supervisor` classes of app/Supervisor.py. Each method
    is proved against the functions of PrinterState and Orchestration, whose
    own properties are proved there. */
module Farm {
  import opened Outcomes
  import opened Octo
  import opened PrintTable
  import opened Gcode
  import PS = PrinterState
  import RT = Registry
  import opened Orchestration
  import opened Queue

  /** One OctoPrint instance. */
  class Printer {
    const name: string
    const printerType: string
    const url: Option<string>
    const apiKey: Option<string>
    var state: Option<string>
    var client: Option<Client>

    /** The fields the methods change. */
    function Snapshot(): PS.Conn
      reads this
    {
      PS.Conn(state, client)
    }

    /** Lines 37-44: the fields are set, state and client start as None.
        The two calls that follow in `__init__` are `Init`. */
    constructor (name: string, printerType: string, url: Option<string>, apiKey: Option<string>)
      ensures this.name == name && this.printerType == printerType
      ensures this.url == url && this.apiKey == apiKey
      ensures state.None? && client.None?
    {
      this.name := name;
      this.printerType := printerType;
      this.url := url;
      this.apiKey := apiKey;
      state := None;
      client := None;
    }

    /** Lines 45-46: `start_client()` then `update_state()`. */
    method Init(dev: Device) returns (r: Result<bool>)
      requires state.None? && client.None?
      modifies this
      ensures Snapshot() == PS.Boot(url, apiKey, dev).conn
      ensures r == PS.Boot(url, apiKey, dev).result
      ensures dev.connect.None? && url.Some? && dev.status.Ok? ==>
                r == Ok(true) && state == Some(dev.status.value.text) && client.Some?
    {
      var started := StartClient(dev.connect);
      if started.Raised? {
        return started;
      }
      r := UpdateState(false, dev);
    }

    /** `start_client`: `connect` says how creating the OctoRest client
        fails, if it does. */
    method StartClient(connect: Option<ErrorKind>) returns (r: Result<bool>)
      modifies this
      ensures Snapshot() == PS.StartClient(old(Snapshot()), url, apiKey, connect).conn
      ensures r == PS.StartClient(old(Snapshot()), url, apiKey, connect).result
      ensures r == Ok(true) <==> url.Some? && connect.None?
      ensures r != Ok(true) ==> client == old(client)
    {
      var failure := if url.None? then Some(TypeError) else connect;
      if failure.None? {
        client := Some(Client(url.value, apiKey));
        return Ok(true);
      }
      if failure.value == ConnectionError || failure.value == RuntimeError {
        state := Some(PS.OctoprintOffline);
        return Ok(false);
      }
      if failure.value == TypeError {
        state := Some(PS.InvalidState);
        return Ok(false);
      }
      r := Raised(failure.value);
    }

    /** `get_full_status`: `reply` is what `self.client.printer()` returns
        or raises. */
    method FullStatus(reply: Result<Status>) returns (r: Result<Status>)
      ensures r == PS.FullStatus(Snapshot(), reply)
      ensures PS.Sticky(state) ==> r == Ok(Status(state.value))
      ensures !PS.Sticky(state) && client.Some? && reply.Ok? ==> r == reply
      ensures !PS.Sticky(state) && client.None? ==> r == Ok(Status(PS.InvalidState))
    {
      if state == Some(PS.OctoprintOffline) || state == Some(PS.InvalidState) {
        return Ok(Status(state.value));
      }
      if client.None? {
        return Ok(Status(PS.InvalidState));
      }
      if reply.Ok? {
        return reply;
      }
      if reply.error == ConnectionError {
        r := Ok(Status(PS.OctoprintOffline));
      } else if reply.error == RuntimeError {
        r := Ok(Status(PS.PrinterOffline));
      } else if reply.error == AttributeError {
        r := Ok(Status(PS.InvalidState));
      } else {
        r := reply;
      }
    }

    /** `update_state(force)`. */
    method UpdateState(force: bool, dev: Device) returns (r: Result<bool>)
      modifies this
      ensures Snapshot() == PS.UpdateState(old(Snapshot()), url, apiKey, force, dev).conn
      ensures r == PS.UpdateState(old(Snapshot()), url, apiKey, force, dev).result
      ensures old(state) == Some(PS.InvalidState) ==> r == Ok(false) && state == old(state)
    {
      if state == Some(PS.InvalidState) {
        return Ok(false);
      }
      if state == Some(PS.OctoprintOffline) {
        if !force {
          return Ok(false);
        }
        var started := StartClient(dev.connect);
        if started != Ok(true) {
          return started;
        }
      }
      var status := FullStatus(dev.status);
      if status.Raised? {
        return Raised(status.error);
      }
      state := Some(status.value.text);
      r := Ok(true);
    }
  }

  /** A Printer as `Registry` sees it. */
  ghost function EntryOf(p: Printer): RT.Entry
    reads p
  {
    RT.Entry(p.name, p.printerType, p.url, p.apiKey, p.Snapshot())
  }

  /** Dictionary keys in insertion order, each once. */
  ghost predicate NoDuplicates(ids: seq<int>)
  {
    forall i, j :: 0 <= i < j < |ids| ==> ids[i] != ids[j]
  }

  /** Monitors and controls the printers registered in the queue. */
  class Supervisor {
    const queue: QueueInterface
    /** `config['printers']['working_folder']`. */
    const workingFolder: string
    /** The keys of `self.printers` in insertion order. */
    var ids: seq<int>
    var printers: map<int, Printer>

    ghost predicate Valid()
      reads this, queue
    {
      queue.Valid() && Registry()
    }

    /** `ids` lists the dictionary's keys once each, and no Printer is
        stored under two ids. */
    ghost predicate Registry()
      reads this
    {
      && NoDuplicates(ids)
      && (forall id :: id in printers <==> id in ids)
      && (forall k :: 0 <= k < |ids| ==> ids[k] in printers)
      && (forall a, b :: a in printers && b in printers && a != b ==> printers[a] != printers[b])
    }

    /** The dictionary matches `r`: the same keys in the same order, and
        under each key a Printer whose entry is the one `r` holds. */
    ghost predicate Mirrors(r: RT.Roster)
      reads this, printers.Values
    {
      && r.ids == ids && r.entries.Keys == printers.Keys
      && forall id :: id in printers ==> r.entries[id] == EntryOf(printers[id])
    }

    /** The dictionary as `Registry` sees it. */
    ghost function RosterOf(): (r: RT.Roster)
      reads this, printers.Values
      ensures Mirrors(r)
    {
      RT.Roster(ids, map id | id in printers :: EntryOf(printers[id]))
    }

    /** Only one roster matches the dictionary. */
    lemma MirrorsRosterOf(r: RT.Roster)
      requires Mirrors(r)
      ensures r == RosterOf()
    {
      var s := RosterOf();
      forall id | id in r.entries
        ensures r.entries[id] == s.entries[id]
      {
        assert r.entries[id] == EntryOf(printers[id]);
      }
      assert r.entries == s.entries;
    }

    /** What `check_printer_states` reads of each printer. */
    ghost function Views(): (r: map<int, View>)
      reads this, printers.Values
      ensures forall id :: id in r <==> id in printers
    {
      map id | id in printers :: View(printers[id].state, printers[id].printerType, printers[id].client)
    }

    /** Lines 130-131: the queue and an empty dictionary of printers; the
        `refresh_printers()` that follows is the first `RefreshPrinters`. */
    constructor (queue: QueueInterface, workingFolder: string)
      requires queue.Valid()
      ensures Valid() && this.queue == queue && this.workingFolder == workingFolder
      ensures ids == [] && printers == map[]
    {
      this.queue := queue;
      this.workingFolder := workingFolder;
      ids := [];
      printers := map[];
    }

    /** Line 140: a new Printer for an id not yet in the dictionary,
        connected as its constructor does, and appended unless that raised.
        `r0` is the dictionary before the call. */
    method AddPrinter(row: PrinterRow, fleet: int -> Device, ghost r0: RT.Roster) returns (r: Result<()>)
      requires Valid() && Mirrors(r0) && row.id !in printers
      modifies this
      ensures Valid() && unchanged(queue)
      ensures r.Ok? ==>
                && ids == old(ids) + [row.id]
                && row.id in printers && printers == old(printers)[row.id := printers[row.id]]
                && fresh(printers[row.id])
                && Mirrors(RT.Roster(r0.ids + [row.id], r0.entries[row.id := RT.NewEntry(row, fleet(row.id))]))
                && PS.Boot(row.address, row.apiKey, fleet(row.id)).result.Ok?
      ensures r.Raised? ==>
                && ids == old(ids) && printers == old(printers) && Mirrors(r0)
                && PS.Boot(row.address, row.apiKey, fleet(row.id)).result == Raised(r.error)
    {
      var p := new Printer(row.name, row.printerType, row.address, row.apiKey);
      var started := p.Init(fleet(row.id));
      if started.Raised? {
        return Raised(started.error);
      }
      printers := printers[row.id := p];
      ids := ids + [row.id];
      r := Ok(());
    }

    /** Line 142: `update_state(True)` on the Printer already under the
        row's id; no other printer changes. */
    method ForceUpdate(row: PrinterRow, fleet: int -> Device, ghost r0: RT.Roster) returns (r: Result<()>)
      requires Valid() && Mirrors(r0) && row.id in printers && row.apiKey.Some?
      modifies printers[row.id]
      ensures Valid()
      ensures Mirrors(RT.RefreshRow(r0, row, fleet).roster) && r == RT.RefreshRow(r0, row, fleet).result
    {
      var p := printers[row.id];
      var updated := p.UpdateState(true, fleet(row.id));
      r := if updated.Raised? then Raised(updated.error) else Ok(());
      forall id | id in printers && id != row.id
        ensures EntryOf(printers[id]) == old(EntryOf(printers[id]))
      {
        assert printers[id] != p;
      }
    }

    /** One pass of the loop in `refresh_printers` (lines 138-142), as
        `Registry.RefreshRow` states it: a row without an api key is
        skipped, a new id gets a new Printer (`AddPrinter`), and a known id
        keeps its Printer, which gets `update_state(True)` (`ForceUpdate`). */
    method RefreshRow(row: PrinterRow, fleet: int -> Device, ghost r0: RT.Roster) returns (r: Result<()>)
      requires Valid() && Mirrors(r0)
      modifies this, printers.Values
      ensures Valid() && unchanged(queue)
      ensures Mirrors(RT.RefreshRow(r0, row, fleet).roster) && r == RT.RefreshRow(r0, row, fleet).result
      ensures forall id :: id in old(printers) ==> id in printers && printers[id] == old(printers[id])
      ensures forall id :: id in printers && id !in old(printers) ==> fresh(printers[id])
      ensures forall p :: p in printers.Values ==> p in old(printers.Values) || fresh(p)
    {
      if row.apiKey.None? {
        return Ok(());
      }
      if row.id !in printers {
        var added := AddPrinter(row, fleet, r0);
        r := if added.Raised? then Raised(added.error) else Ok(());
      } else {
        r := ForceUpdate(row, fleet, r0);
      }
    }

    /** `refresh_printers`: the dictionary and the exception are those of
        `Registry.Refresh` over the rows of `printers`, whose properties
        the `Registry` lemmas state. Printers already registered keep
        their objects; every new one is a fresh object. */
    method RefreshPrinters(fleet: int -> Device) returns (r: Result<()>)
      requires Valid()
      modifies this, printers.Values
      ensures Valid() && unchanged(queue)
      ensures RT.Outcome(RosterOf(), r) == RT.Refresh(old(RosterOf()), queue.printers, fleet)
      ensures forall id :: id in old(printers) ==> id in printers && printers[id] == old(printers[id])
      ensures forall id :: id in printers && id !in old(printers) ==> fresh(printers[id])
    {
      ghost var r0 := RosterOf();
      var details := queue.GetAllPrinterDetails();
      var i := 0;
      while i < |details|
        invariant 0 <= i <= |details| && details == queue.printers
        invariant Valid() && unchanged(queue)
        invariant RT.Refresh(r0, details[..i], fleet).result == Ok(())
        invariant Mirrors(RT.Refresh(r0, details[..i], fleet).roster)
        invariant forall p :: p in printers.Values ==> p in old(printers.Values) || fresh(p)
        invariant forall id :: id in old(printers) ==> id in printers && printers[id] == old(printers[id])
        invariant forall id :: id in printers && id !in old(printers) ==> fresh(printers[id])
      {
        assert details[..i + 1][..i] == details[..i];
        r := RefreshRow(details[i], fleet, RT.Refresh(r0, details[..i], fleet).roster);
        if r.Raised? {
          RT.RefreshStops(r0, details, i + 1, fleet);
          MirrorsRosterOf(RT.Refresh(r0, details, fleet).roster);
          return;
        }
        i := i + 1;
      }
      assert details[..i] == details;
      MirrorsRosterOf(RT.Refresh(r0, details, fleet).roster);
      r := Ok(());
    }

    /** `update_printer_states(force)`: `update_state(force)` on every
        printer in dictionary order; an exception stops the loop. It ends
        normally exactly when no printer's update raises; otherwise printer
        `ids[k]` is the first whose update raised, the printers before it
        and it itself hold their updated state, and those after it are as
        they were. */
    method UpdatePrinterStates(force: bool, fleet: int -> Device) returns (r: Result<()>)
      requires Valid()
      modifies printers.Values
      ensures Valid()
      ensures r.Ok? <==> forall id :: id in printers ==>
                PS.UpdateState(old(printers[id].Snapshot()), printers[id].url, printers[id].apiKey, force, fleet(id)).result.Ok?
      ensures r.Ok? ==> forall id :: id in printers ==>
                printers[id].Snapshot()
                == PS.UpdateState(old(printers[id].Snapshot()), printers[id].url, printers[id].apiKey, force, fleet(id)).conn
      ensures r.Raised? ==>
                exists k :: 0 <= k < |ids|
                  && PS.UpdateState(old(printers[ids[k]].Snapshot()), printers[ids[k]].url, printers[ids[k]].apiKey,
                                    force, fleet(ids[k])).result == Raised(r.error)
                  && (forall j :: 0 <= j < k ==>
                        PS.UpdateState(old(printers[ids[j]].Snapshot()), printers[ids[j]].url, printers[ids[j]].apiKey,
                                       force, fleet(ids[j])).result.Ok?)
                  && (forall j :: 0 <= j <= k ==>
                        printers[ids[j]].Snapshot()
                        == PS.UpdateState(old(printers[ids[j]].Snapshot()), printers[ids[j]].url, printers[ids[j]].apiKey,
                                          force, fleet(ids[j])).conn)
                  && (forall j :: k < j < |ids| ==> printers[ids[j]].Snapshot() == old(printers[ids[j]].Snapshot()))
    {
      var i := 0;
      while i < |ids|
        invariant 0 <= i <= |ids| && Valid()
        invariant forall k :: 0 <= k < i ==>
                    && printers[ids[k]].Snapshot()
                       == PS.UpdateState(old(printers[ids[k]].Snapshot()), printers[ids[k]].url, printers[ids[k]].apiKey, force, fleet(ids[k])).conn
                    && PS.UpdateState(old(printers[ids[k]].Snapshot()), printers[ids[k]].url, printers[ids[k]].apiKey, force, fleet(ids[k])).result.Ok?
        invariant forall k :: i <= k < |ids| ==> printers[ids[k]].Snapshot() == old(printers[ids[k]].Snapshot())
      {
        var id := ids[i];
        var p := printers[id];
        var updated := p.UpdateState(force, fleet(id));
        if updated.Raised? {
          r := Raised(updated.error);
          assert PS.UpdateState(old(printers[ids[i]].Snapshot()), printers[ids[i]].url, printers[ids[i]].apiKey,
                                force, fleet(ids[i])).result == Raised(r.error);
          return;
        }
        i := i + 1;
      }
      r := Ok(());
    }

    /** Lines 176-192 for printer `printerId`: `sent` are the commands sent
        before, `issued` those sent after. */
    method StartNext(printerId: int, printerType: string, drive: string -> string, now: int, sent: seq<Command>)
      returns (error: Option<ErrorKind>, issued: seq<Command>)
      requires queue.Valid()
      modifies queue
      ensures queue.Valid() && queue.printers == old(queue.printers)
      ensures Step(World(queue.prints, issued), error)
              == Assign(workingFolder, printerId, printerType, drive, now, World(old(queue.prints), sent))
    {
      ghost var w := World(queue.prints, sent);
      AssignCases(workingFolder, printerId, printerType, drive, now, w);
      var next := queue.GetNextPrint(printerType);
      assert next == NextPrint(w.prints, printerType);
      if next == 0 {
        return None, sent;
      }
      var local := queue.DownloadFile(next, Some(GcodeName(next)));
      assert local == Some(GcodeName(next));
      if local.None? {
        return Some(TypeError), sent;
      }
      var row := queue.GetDetails(next).value;
      assert row == Lookup(w.prints, next).value;
      var content := WithEndPause(drive(row.driveFileId));
      var target := WorkingPath(workingFolder, NatToString(next));
      issued := sent + [Upload(printerId, local.value, content),
                        Move(printerId, GcodeName(next), target),
                        Select(printerId, target, true)];
      queue.MarkRunning(next, printerId, now);
      assert queue.prints == MarkedRunning(w.prints, next, printerId, now);
      error := None;
    }

    /** The loop body of `check_printer_states` for printer `printerId`. */
    method CheckPrinter(printerId: int, printer: Printer, dev: Device, drive: string -> string, now: int, sent: seq<Command>)
      returns (error: Option<ErrorKind>, issued: seq<Command>)
      requires queue.Valid()
      modifies queue
      ensures queue.Valid() && queue.printers == old(queue.printers)
      ensures Step(World(queue.prints, issued), error)
              == CheckOne(workingFolder, printerId, View(printer.state, printer.printerType, printer.client),
                          dev, drive, now, World(old(queue.prints), sent))
    {
      if printer.state != Some(PS.Operational) {
        return None, sent;
      }
      var listing := if printer.client.None? then Raised(AttributeError) else dev.folder;
      if listing.Raised? && listing.error != IndexError {
        return Some(listing.error), sent;
      }
      if listing.Ok? && |listing.value| > 0 {
        var entry := listing.value[0];
        var jobId := JobIdOf(entry.name);
        if entry.prints.None? {
          return Some(KeyError), sent;
        }
        var id := ParseNat(jobId);
        if id.None? {
          return Some(QueryError), sent;
        }
        var gone := Delete(printerId, DeletePath(workingFolder, jobId));
        if entry.prints.value.success {
          queue.MarkComplete(id.value, now);
          issued := sent + [gone];
          error, issued := StartNext(printerId, printer.printerType, drive, now, issued);
        } else {
          queue.MarkFailed(id.value, now);
          issued := sent + [Upload(printerId, PauseFileName, PauseFile(jobId)),
                            Select(printerId, PauseFileName, true), gone];
          error := None;
        }
        return;
      }
      error, issued := StartNext(printerId, printer.printerType, drive, now, sent);
    }

    /** One turn of the loop of `check_printer_states`: printer `ids[i]`
        is checked against the table the printers before it left. */
    method CheckNext(i: nat, ghost views: map<int, View>, fleet: int -> Device, drive: string -> string, now: int,
                     ghost w: World, sent: seq<Command>)
      returns (error: Option<ErrorKind>, issued: seq<Command>)
      requires Valid() && i < |ids|
      requires forall k :: 0 <= k < |ids| ==> ids[k] in views
      requires views[ids[i]] == View(printers[ids[i]].state, printers[ids[i]].printerType, printers[ids[i]].client)
      requires CheckAll(workingFolder, ids[..i], views, fleet, drive, now, w) == Step(World(queue.prints, sent), None)
      modifies queue
      ensures queue.Valid() && queue.printers == old(queue.printers)
      ensures CheckAll(workingFolder, ids[..i + 1], views, fleet, drive, now, w) == Step(World(queue.prints, issued), error)
    {
      CheckAllSnoc(workingFolder, ids, i, views, fleet, drive, now, w);
      error, issued := CheckPrinter(ids[i], printers[ids[i]], fleet(ids[i]), drive, now, sent);
    }

    /** `check_printer_states`: returns the exception that stopped it, if
        any, and the commands sent to the printers. */
    method CheckPrinterStates(fleet: int -> Device, drive: string -> string, now: int)
      returns (r: Result<()>, issued: seq<Command>)
      requires Valid()
      modifies queue
      ensures Valid() && queue.printers == old(queue.printers)
      ensures var s := CheckAll(workingFolder, ids, Views(), fleet, drive, now, World(old(queue.prints), []));
              queue.prints == s.world.prints && issued == s.world.commands
              && (r.Raised? <==> s.error.Some?) && (r.Raised? ==> r.error == s.error.value)
    {
      ghost var views := Views();
      ghost var w := World(queue.prints, []);
      issued := [];
      var i := 0;
      while i < |ids|
        invariant 0 <= i <= |ids| && queue.Valid() && queue.printers == old(queue.printers)
        invariant views == Views()
        invariant CheckAll(workingFolder, ids[..i], views, fleet, drive, now, w) == Step(World(queue.prints, issued), None)
      {
        var error;
        error, issued := CheckNext(i, views, fleet, drive, now, w, issued);
        if error.Some? {
          CheckAllStops(workingFolder, ids, i + 1, views, fleet, drive, now, w);
          return Raised(error.value), issued;
        }
        i := i + 1;
      }
      assert ids[..i] == ids;
      r := Ok(());
    }

    /** One pass of the main loop (lines 200-208): a forced update of
        every printer, then the check. When some update raises, the
        exception leaves the loop before the check: it is the exception of
        the first printer in dictionary order whose update raised, nothing
        is sent and the prints table is as it was. When no update raised, every printer
        holds its updated state and the check ran on those states. */
    method RunCycle(fleet: int -> Device, drive: string -> string, now: int)
      returns (r: Result<()>, issued: seq<Command>)
      requires Valid()
      modifies printers.Values, queue
      ensures Valid() && queue.printers == old(queue.printers)
      ensures !(forall id :: id in printers ==>
                  PS.UpdateState(old(printers[id].Snapshot()), printers[id].url, printers[id].apiKey, true, fleet(id)).result.Ok?) ==>
                && r.Raised? && issued == [] && queue.prints == old(queue.prints)
                && exists k :: 0 <= k < |ids|
                     && PS.UpdateState(old(printers[ids[k]].Snapshot()), printers[ids[k]].url, printers[ids[k]].apiKey,
                                       true, fleet(ids[k])).result == Raised(r.error)
                     && (forall j :: 0 <= j < k ==>
                           PS.UpdateState(old(printers[ids[j]].Snapshot()), printers[ids[j]].url, printers[ids[j]].apiKey,
                                          true, fleet(ids[j])).result.Ok?)
      ensures (forall id :: id in printers ==>
                 PS.UpdateState(old(printers[id].Snapshot()), printers[id].url, printers[id].apiKey, true, fleet(id)).result.Ok?) ==>
                && (forall id :: id in printers ==>
                      printers[id].Snapshot()
                      == PS.UpdateState(old(printers[id].Snapshot()), printers[id].url, printers[id].apiKey, true, fleet(id)).conn)
                && var s := CheckAll(workingFolder, ids, Views(), fleet, drive, now, World(old(queue.prints), []));
                   && queue.prints == s.world.prints && issued == s.world.commands
                   && (r.Raised? <==> s.error.Some?) && (r.Raised? ==> r.error == s.error.value)
    {
      var updated := UpdatePrinterStates(true, fleet);
      if updated.Raised? {
        return updated, [];
      }
      r, issued := CheckPrinterStates(fleet, drive, now);
    }
  }

  /** Once a printer raised, the printers after it are not checked. */
  lemma {:induction false} CheckAllStops(workingFolder: string, ids: seq<int>, n: nat, views: map<int, View>,
                                         fleet: int -> Device, drive: string -> string, now: int, w: World)
    requires n <= |ids| && forall k :: 0 <= k < |ids| ==> ids[k] in views
    requires CheckAll(workingFolder, ids[..n], views, fleet, drive, now, w).error.Some?
    ensures CheckAll(workingFolder, ids, views, fleet, drive, now, w) == CheckAll(workingFolder, ids[..n], views, fleet, drive, now, w)
    decreases |ids| - n
  {
    if n < |ids| {
      assert ids[..n + 1][..n] == ids[..n];
      CheckAllStops(workingFolder, ids, n + 1, views, fleet, drive, now, w);
    } else {
      assert ids[..n] == ids;
    }
  }
}
