/** `refresh_printers` of app/Supervisor.py as functions: the dictionary of
    printers before the refresh, the rows of `printers` and the devices'
    answers determine the dictionary after it and the exception, if any. */
module Registry {
  import opened Outcomes
  import opened Octo
  import opened PrintTable
  import PS = PrinterState

  /** One Printer as the dictionary holds it: its constructor arguments and
      its connection state. */
  datatype Entry = Entry(name: string, printerType: string, url: Option<string>, apiKey: Option<string>,
                         conn: PS.Conn)

  /** `self.printers`: the keys in insertion order and the entry under each. */
  datatype Roster = Roster(ids: seq<int>, entries: map<int, Entry>)

  /** The dictionary after a call, and what the call raised, if anything. */
  datatype Outcome = Outcome(roster: Roster, result: Result<()>)

  /** The Printer line 140 builds for a new row: the row's fields, then the
      state and client its constructor's two calls leave. */
  function NewEntry(row: PrinterRow, dev: Device): Entry
  {
    Entry(row.name, row.printerType, row.address, row.apiKey, PS.Boot(row.address, row.apiKey, dev).conn)
  }

  /** A registered printer after line 142's `update_state(True)`. */
  function ForcedUpdate(e: Entry, dev: Device): Entry
  {
    e.(conn := PS.UpdateState(e.conn, e.url, e.apiKey, true, dev).conn)
  }

  /** One pass of the loop (lines 138-142). A row without an api key is
      skipped. A new id gets a new Printer, which is stored (and its key
      appended) only if its constructor returns. A known id keeps its
      Printer, which is updated with `update_state(True)`. */
  function RefreshRow(r: Roster, row: PrinterRow, fleet: int -> Device): Outcome
  {
    var dev := fleet(row.id);
    if row.apiKey.None? then Outcome(r, Ok(()))
    else if row.id !in r.entries then
      var t := PS.Boot(row.address, row.apiKey, dev);
      if t.result.Raised? then Outcome(r, Raised(t.result.error))
      else Outcome(Roster(r.ids + [row.id], r.entries[row.id := NewEntry(row, dev)]), Ok(()))
    else
      var t := PS.UpdateState(r.entries[row.id].conn, r.entries[row.id].url, r.entries[row.id].apiKey, true, dev);
      Outcome(r.(entries := r.entries[row.id := ForcedUpdate(r.entries[row.id], dev)]),
              if t.result.Raised? then Raised(t.result.error) else Ok(()))
  }

  /** `refresh_printers` over `rows` in order; the first exception ends it. */
  function Refresh(r: Roster, rows: seq<PrinterRow>, fleet: int -> Device): Outcome
    decreases |rows|
  {
    if rows == [] then Outcome(r, Ok(()))
    else
      var before := Refresh(r, rows[..|rows| - 1], fleet);
      if before.result.Raised? then before else RefreshRow(before.roster, rows[|rows| - 1], fleet)
  }

  /** Once a row raised, the rows after it are not visited. */
  lemma {:induction false} RefreshStops(r: Roster, rows: seq<PrinterRow>, n: nat, fleet: int -> Device)
    requires n <= |rows| && Refresh(r, rows[..n], fleet).result.Raised?
    ensures Refresh(r, rows, fleet) == Refresh(r, rows[..n], fleet)
    decreases |rows| - n
  {
    if n < |rows| {
      assert rows[..n + 1][..n] == rows[..n];
      RefreshStops(r, rows, n + 1, fleet);
    } else {
      assert rows[..n] == rows;
    }
  }

  /** A refresh only appends keys and never drops or re-keys an entry; a
      key it adds is the id of a row with an api key. */
  lemma {:induction false} RefreshGrows(r: Roster, rows: seq<PrinterRow>, fleet: int -> Device)
    ensures var s := Refresh(r, rows, fleet).roster;
            && r.ids <= s.ids
            && r.entries.Keys <= s.entries.Keys
            && (forall id :: id in s.entries && id !in r.entries ==> id in KeyedIds(rows))
            && (forall k :: |r.ids| <= k < |s.ids| ==> s.ids[k] in KeyedIds(rows) && s.ids[k] !in r.entries)
    decreases |rows|
  {
    if rows != [] {
      RefreshGrows(r, rows[..|rows| - 1], fleet);
    }
  }

  /** A printer that no row carries keeps its entry, whatever the refresh
      did elsewhere and however it ended. */
  lemma {:induction false} RefreshUntouched(r: Roster, rows: seq<PrinterRow>, fleet: int -> Device, id: int)
    requires forall k :: 0 <= k < |rows| ==> rows[k].id != id
    ensures var s := Refresh(r, rows, fleet).roster;
            (id in s.entries <==> id in r.entries) && (id in r.entries ==> s.entries[id] == r.entries[id])
    decreases |rows|
  {
    if rows != [] {
      RefreshUntouched(r, rows[..|rows| - 1], fleet, id);
    }
  }

  /** What a refresh that raised nothing did for each row with an api key,
      under the primary key of `printers`: a printer already registered
      received exactly one forced update, and a new one is the Printer
      built from its row. */
  lemma {:induction false} RefreshOutcome(r: Roster, rows: seq<PrinterRow>, fleet: int -> Device)
    requires UniquePrinterIds(rows)
    requires Refresh(r, rows, fleet).result.Ok?
    ensures var s := Refresh(r, rows, fleet).roster;
            forall k :: 0 <= k < |rows| && rows[k].apiKey.Some? ==>
              && rows[k].id in s.entries
              && s.entries[rows[k].id]
                 == if rows[k].id in r.entries then ForcedUpdate(r.entries[rows[k].id], fleet(rows[k].id))
                    else NewEntry(rows[k], fleet(rows[k].id))
    decreases |rows|
  {
    if rows != [] {
      var n := |rows| - 1;
      var init := rows[..n];
      var last := rows[n];
      var before := Refresh(r, init, fleet);
      assert UniquePrinterIds(init);
      RefreshOutcome(r, init, fleet);
      RefreshUntouched(r, init, fleet, last.id);
      assert forall k :: 0 <= k < n ==> rows[k] == init[k];
    }
  }

  /** A refresh that raised nothing leaves an entry under every row with an
      api key. */
  lemma RefreshCovers(r: Roster, rows: seq<PrinterRow>, fleet: int -> Device)
    requires UniquePrinterIds(rows)
    requires Refresh(r, rows, fleet).result.Ok?
    ensures forall row :: row in rows && row.apiKey.Some? ==> row.id in Refresh(r, rows, fleet).roster.entries
  {
    RefreshOutcome(r, rows, fleet);
    forall row | row in rows && row.apiKey.Some?
      ensures row.id in Refresh(r, rows, fleet).roster.entries
    {
      var k :| 0 <= k < |rows| && rows[k] == row;
    }
  }
}
