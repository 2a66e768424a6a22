/** The first Supervisor.py, over the queue of QueueInterface.py: a printer
    only connects, and the supervisor only builds its dictionary of printers. */
module Prototype {
  import opened Outcomes
  import opened Octo
  import opened PrintTable
  import LegacyQueue

  const Offline: string := "Offline"
  const Invalid: string := "Invalid"

  /** The fields of a Printer that `start_client` changes. */
  datatype Conn = Conn(state: Option<string>, client: Option<Client>)

  /** The fields after `start_client`, and what it returned or raised. */
  datatype Transition = Transition(conn: Conn, result: Result<int>)

  /** `start_client` (lines 17-27): create the client, then read the flags
      of `printer()` (lines 29-30). Python's own ConnectionError gives
      "Offline" and TypeError (a None url) gives "Invalid", both returning 0;
      any other exception propagates. A client once created is kept. */
  function Started(c: Conn, url: Option<string>, apiKey: Option<string>, dev: Device): Transition
  {
    var failure := if url.None? then Some(TypeError) else dev.connect;
    var c1 := if failure.None? then c.(client := Some(Client(url.value, apiKey))) else c;
    var failure1 := if failure.None? && dev.status.Raised? then Some(dev.status.error) else failure;
    if failure1.None? then Transition(c1, Ok(1))
    else if failure1.value == BuiltinConnectionError then Transition(c1.(state := Some(Offline)), Ok(0))
    else if failure1.value == TypeError then Transition(c1.(state := Some(Invalid)), Ok(0))
    else Transition(c1, Raised(failure1.value))
  }

  /** A Printer built by `refresh_printers` (state and client None): when
      its constructor returns, it is connected with the state still None,
      or it has no client and is "Offline" or "Invalid", or it has a client
      whose flag read failed. */
  lemma NewPrinterState(url: Option<string>, apiKey: Option<string>, dev: Device)
    ensures var t := Started(Conn(None, None), url, apiKey, dev);
            && (t.result == Ok(1) <==> url.Some? && dev.connect.None? && dev.status.Ok?)
            && (t.result == Ok(1) ==> t.conn == Conn(None, Some(Client(url.value, apiKey))))
            && (url.None? ==> t == Transition(Conn(Some(Invalid), None), Ok(0)))
            && (url.Some? && dev.connect.Some? ==>
                  t.conn.client.None?
                  && t == if dev.connect.value == BuiltinConnectionError then Transition(Conn(Some(Offline), None), Ok(0))
                          else if dev.connect.value == TypeError then Transition(Conn(Some(Invalid), None), Ok(0))
                          else Transition(Conn(None, None), Raised(dev.connect.value)))
            && (t.result.Ok? ==> t.result.value == 0 || t.result.value == 1)
  {
  }

  /** A Printer in the dictionary: its constructor arguments and the fields
      `start_client` set. */
  datatype Entry = Entry(name: string, printerType: string, url: Option<string>, apiKey: Option<string>,
                         currentPrint: Option<int>, conn: Conn)

  /** `self.printers`: the keys in insertion order and the entry under each. */
  datatype Roster = Roster(ids: seq<int>, entries: map<int, Entry>)

  /** The dictionary after a call, and what the call raised, if anything. */
  datatype Outcome = Outcome(roster: Roster, result: Result<()>)

  /** The Printer line 47 builds from a row: the row's fields, state and
      current print None, then `start_client()`. */
  function NewEntry(row: PrinterRow, dev: Device): Entry
  {
    Entry(row.name, row.printerType, row.address, row.apiKey, None, Started(Conn(None, None), row.address, row.apiKey, dev).conn)
  }

  /** One pass of the loop (lines 45-47): a row without an api key is
      skipped; otherwise the new Printer is stored under the row's id,
      replacing any entry there, unless its constructor raised. A replaced
      key keeps its place in the key order. */
  function RegisterRow(r: Roster, row: PrinterRow, fleet: int -> Device): Outcome
  {
    if row.apiKey.None? then Outcome(r, Ok(()))
    else
      var t := Started(Conn(None, None), row.address, row.apiKey, fleet(row.id));
      if t.result.Raised? then Outcome(r, Raised(t.result.error))
      else Outcome(Roster(if row.id in r.entries then r.ids else r.ids + [row.id],
                          r.entries[row.id := NewEntry(row, fleet(row.id))]), Ok(()))
  }

  /** `refresh_printers` over `rows` in order; the first exception ends it. */
  function Refresh(r: Roster, rows: seq<PrinterRow>, fleet: int -> Device): Outcome
    decreases |rows|
  {
    if rows == [] then Outcome(r, Ok(()))
    else
      var before := Refresh(r, rows[..|rows| - 1], fleet);
      if before.result.Raised? then before else RegisterRow(before.roster, rows[|rows| - 1], fleet)
  }

  /** One more row: the refresh of the first `i + 1` rows continues that of
      the first `i` unless it already raised. */
  lemma RefreshNext(r: Roster, rows: seq<PrinterRow>, i: nat, fleet: int -> Device)
    requires i < |rows|
    ensures var before := Refresh(r, rows[..i], fleet);
            Refresh(r, rows[..i + 1], fleet) == if before.result.Raised? then before else RegisterRow(before.roster, rows[i], fleet)
  {
    assert rows[..i + 1][..i] == rows[..i];
  }

  /** The keyed ids of a prefix are keyed ids of the whole. */
  lemma {:induction false} KeyedPrefix(rows: seq<PrinterRow>, n: nat)
    requires n <= |rows|
    ensures KeyedIds(rows[..n]) <= KeyedIds(rows)
    decreases |rows| - n
  {
    if n < |rows| {
      assert rows[..n + 1][..n] == rows[..n];
      KeyedPrefix(rows, n + 1);
    } else {
      assert rows[..n] == rows;
    }
  }

  /** Once a row raised, the rows after it are not visited. */
  lemma {:induction false} RefreshStops(r: Roster, rows: seq<PrinterRow>, n: nat, fleet: int -> Device)
    requires n <= |rows| && Refresh(r, rows[..n], fleet).result.Raised?
    ensures Refresh(r, rows, fleet) == Refresh(r, rows[..n], fleet)
    decreases |rows| - n
  {
    if n < |rows| {
      assert rows[..n + 1][..n] == rows[..n];
      RefreshStops(r, rows, n + 1, fleet);
    } else {
      assert rows[..n] == rows;
    }
  }

  /** Keys are only appended and never dropped, whether or not the refresh
      raised; an id no keyed row carries keeps its entry. */
  lemma {:induction false} RefreshKeeps(r: Roster, rows: seq<PrinterRow>, fleet: int -> Device)
    ensures var s := Refresh(r, rows, fleet).roster;
            && r.ids <= s.ids
            && r.entries.Keys <= s.entries.Keys
            && forall id :: id in r.entries && (forall k :: 0 <= k < |rows| && rows[k].apiKey.Some? ==> rows[k].id != id) ==>
                 s.entries[id] == r.entries[id]
    decreases |rows|
  {
    if rows != [] {
      RefreshKeeps(r, rows[..|rows| - 1], fleet);
    }
  }

  /** A refresh that raised nothing leaves under the id of every row with
      an api key the Printer built from the LAST such row with that id:
      each later row overwrote the entry of an earlier one. */
  lemma {:induction false} RefreshLastWins(r: Roster, rows: seq<PrinterRow>, fleet: int -> Device)
    requires Refresh(r, rows, fleet).result.Ok?
    ensures var s := Refresh(r, rows, fleet).roster;
            forall k :: 0 <= k < |rows| && rows[k].apiKey.Some?
                        && (forall j :: k < j < |rows| && rows[j].apiKey.Some? ==> rows[j].id != rows[k].id) ==>
              rows[k].id in s.entries && s.entries[rows[k].id] == NewEntry(rows[k], fleet(rows[k].id))
    decreases |rows|
  {
    if rows != [] {
      var n := |rows| - 1;
      var init := rows[..n];
      RefreshLastWins(r, init, fleet);
      assert forall k :: 0 <= k < n ==> rows[k] == init[k];
    }
  }

  class Printer {
    const name: string
    const printerType: string
    const url: Option<string>
    const apiKey: Option<string>
    var state: Option<string>
    /** Stored and never read. */
    var currentPrint: Option<int>
    var client: Option<Client>

    /** Lines 7-13: the fields, with the client still None. The
        `start_client()` that follows is `Init`. */
    constructor (name: string, printerType: string, url: Option<string>, apiKey: Option<string>,
                 state: Option<string>, currentPrint: Option<int>)
      ensures this.name == name && this.printerType == printerType && this.url == url && this.apiKey == apiKey
      ensures this.state == state && this.currentPrint == currentPrint && client.None?
    {
      this.name := name;
      this.printerType := printerType;
      this.state := state;
      this.currentPrint := currentPrint;
      this.client := None;
      this.url := url;
      this.apiKey := apiKey;
    }

    /** The fields `start_client` changes. */
    function Snapshot(): Conn
      reads this
    {
      Conn(state, client)
    }

    /** Line 15: `start_client()`. An exception it does not catch leaves the
        constructor. */
    method Init(dev: Device) returns (r: Result<int>)
      requires client.None?
      modifies this
      ensures Snapshot() == Started(old(Snapshot()), url, apiKey, dev).conn && currentPrint == old(currentPrint)
      ensures r == Started(old(Snapshot()), url, apiKey, dev).result
      ensures r.Ok? ==> r.value == 0 || r.value == 1
      ensures r == Ok(1) <==> url.Some? && dev.connect.None? && dev.status.Ok?
      ensures r == Ok(1) ==> state == old(state) && client == Some(Client(url.value, apiKey))
      ensures r == Ok(0) ==> state == Some(Offline) || state == Some(Invalid)
      ensures r.Raised? ==> state == old(state)
    {
      r := StartClient(dev);
    }

    /** `start_client`: create the client, then `update_state()` reads the
        flags of `printer()`. Returns 1 on success, leaving the state as it
        was; 0 with state "Offline" after Python's own ConnectionError and
        "Invalid" after a TypeError (a None url). Anything else propagates:
        `requests`' ConnectionError and RuntimeError are not caught. */
    method StartClient(dev: Device) returns (r: Result<int>)
      modifies this
      ensures Snapshot() == Started(old(Snapshot()), url, apiKey, dev).conn && currentPrint == old(currentPrint)
      ensures r == Started(old(Snapshot()), url, apiKey, dev).result
      ensures r.Ok? ==> r.value == 0 || r.value == 1
      ensures r == Ok(1) <==> url.Some? && dev.connect.None? && dev.status.Ok?
      ensures r == Ok(1) ==> state == old(state) && client == Some(Client(url.value, apiKey))
      ensures url.None? ==> r == Ok(0) && state == Some(Invalid) && client == old(client)
      ensures r == Ok(0) ==> state == Some(Offline) || state == Some(Invalid)
      ensures r.Raised? ==> r.error != BuiltinConnectionError && r.error != TypeError && state == old(state)
      ensures url.Some? && dev.connect.None? ==> client == Some(Client(url.value, apiKey))
      ensures url.Some? && dev.connect.None? && dev.status.Raised? ==>
                if dev.status.error == BuiltinConnectionError then r == Ok(0) && state == Some(Offline)
                else if dev.status.error == TypeError then r == Ok(0) && state == Some(Invalid)
                else r == Raised(dev.status.error)
      ensures url.Some? && dev.connect.Some? ==>
                && client == old(client)
                && if dev.connect.value == BuiltinConnectionError then r == Ok(0) && state == Some(Offline)
                   else if dev.connect.value == TypeError then r == Ok(0) && state == Some(Invalid)
                   else r == Raised(dev.connect.value) && state == old(state)
    {
      var failure := if url.None? then Some(TypeError) else dev.connect;
      if failure.None? {
        client := Some(Client(url.value, apiKey));
        failure := if dev.status.Raised? then Some(dev.status.error) else None;
      }
      if failure.None? {
        return Ok(1);
      }
      if failure.value == BuiltinConnectionError {
        state := Some(Offline);
        return Ok(0);
      }
      if failure.value == TypeError {
        state := Some(Invalid);
        return Ok(0);
      }
      r := Raised(failure.value);
    }
  }

  /** A Printer as `Refresh` sees it. */
  ghost function EntryOf(p: Printer): Entry
    reads p
  {
    Entry(p.name, p.printerType, p.url, p.apiKey, p.currentPrint, p.Snapshot())
  }

  class Supervisor {
    const queue: LegacyQueue.QueueInterface
    /** The keys of `self.printers` in insertion order. */
    var ids: seq<int>
    var printers: map<int, Printer>

    ghost predicate Valid()
      reads this
    {
      && (forall i, j :: 0 <= i < j < |ids| ==> ids[i] != ids[j])
      && (forall id :: id in printers <==> id in ids)
    }

    /** Lines 39-40: the queue and an empty dictionary; the
        `refresh_printers()` that follows is the first `RefreshPrinters`. */
    constructor (queue: LegacyQueue.QueueInterface)
      ensures Valid() && this.queue == queue && ids == [] && printers == map[]
    {
      this.queue := queue;
      ids := [];
      printers := map[];
    }

    /** The dictionary matches `r`: the same keys in the same order, and
        under each key a Printer whose entry is the one `r` holds. */
    ghost predicate Mirrors(r: Roster)
      reads this, printers.Values
    {
      && r.ids == ids && r.entries.Keys == printers.Keys
      && forall id :: id in printers ==> r.entries[id] == EntryOf(printers[id])
    }

    /** The dictionary as `Refresh` sees it. */
    ghost function RosterOf(): (r: Roster)
      reads this, printers.Values
      ensures Mirrors(r)
    {
      Roster(ids, map id | id in printers :: EntryOf(printers[id]))
    }

    /** Only one roster matches the dictionary. */
    lemma MirrorsRosterOf(r: Roster)
      requires Mirrors(r)
      ensures r == RosterOf()
    {
      var s := RosterOf();
      forall id | id in r.entries
        ensures r.entries[id] == s.entries[id]
      {
        assert r.entries[id] == EntryOf(printers[id]);
      }
      assert r.entries == s.entries;
    }

    /** The body of the loop in `refresh_printers` for a row with an api
        key: a new Printer, connected by its constructor, is stored under
        the row's id unless the constructor raised; the dictionary becomes
        `RegisterRow`'s. `r0` is the dictionary before the call. */
    method Register(row: PrinterRow, fleet: int -> Device, ghost r0: Roster) returns (r: Result<()>)
      requires Valid() && Mirrors(r0) && row.apiKey.Some?
      modifies this
      ensures Valid()
      ensures Mirrors(RegisterRow(r0, row, fleet).roster) && r == RegisterRow(r0, row, fleet).result
      ensures r.Ok? ==>
                && row.id in printers && printers == old(printers)[row.id := printers[row.id]]
                && ids == (if row.id in old(printers) then old(ids) else old(ids) + [row.id])
                && fresh(printers[row.id])
      ensures r.Raised? ==> printers == old(printers) && ids == old(ids)
    {
      var p := new Printer(row.name, row.printerType, row.address, row.apiKey, None, None);
      var started := p.Init(fleet(row.id));
      if started.Raised? {
        return Raised(started.error);
      }
      if row.id !in printers {
        ids := ids + [row.id];
      }
      printers := printers[row.id := p];
      r := Ok(());
    }

    /** Lines 43-47: `refresh_printers` stores a new Printer under the id
        of every row with an api key, in the queue's order, until one
        constructor raises. The dictionary becomes `Refresh`'s; keys are
        never dropped; each Printer stored is a new object, and a key no
        keyed row carries keeps its Printer. */
    method RefreshPrinters(fleet: int -> Device) returns (r: Result<()>)
      requires Valid()
      modifies this
      ensures Valid()
      ensures Outcome(RosterOf(), r) == Refresh(old(RosterOf()), queue.printers, fleet)
      ensures old(ids) <= ids && forall id :: id in old(printers) ==> id in printers
      ensures forall id :: id in printers && (id !in old(printers) || printers[id] != old(printers[id])) ==>
                fresh(printers[id])
      ensures forall id :: id in old(printers) && id !in KeyedIds(queue.printers) ==> printers[id] == old(printers[id])
      ensures r.Ok? ==> forall id :: id in KeyedIds(queue.printers) ==> id in printers && fresh(printers[id])
      ensures r.Ok? ==> forall row :: row in queue.printers && row.apiKey.Some? ==> row.id in printers && fresh(printers[row.id])
    {
      ghost var r0 := RosterOf();
      var details := queue.GetAllPrinterDetails();
      ghost var acc := r0;
      ghost var done: set<int> := {};
      var i := 0;
      r := Ok(());
      while i < |details|
        invariant 0 <= i <= |details| && details == queue.printers && r == Ok(())
        invariant Valid()
        invariant Refresh(r0, details[..i], fleet) == Outcome(acc, Ok(()))
        invariant Mirrors(acc)
        invariant done == KeyedIds(details[..i])
        invariant forall id :: id in done ==> id in printers && fresh(printers[id])
        invariant forall id :: id in printers ==> id in old(printers) || id in done
        invariant forall id :: id in old(printers) && id !in done ==> id in printers && printers[id] == old(printers[id])
      {
        RefreshNext(r0, details, i, fleet);
        assert details[..i + 1][..i] == details[..i];
        ghost var next := RegisterRow(acc, details[i], fleet);
        if details[i].apiKey.Some? {
          r := Register(details[i], fleet, acc);
          if r.Raised? {
            RefreshStops(r0, details, i + 1, fleet);
            acc := next.roster;
            assert Refresh(r0, details, fleet) == Outcome(acc, r);
            break;
          }
          done := done + {details[i].id};
        }
        acc := next.roster;
        i := i + 1;
      }
      if r.Ok? {
        assert details[..i] == details;
      }
      KeyedPrefix(details, i);
      Finish(r0, details, fleet, acc);
      KeyedIdsMembers(details);
    }

    /** The dictionary mirrors `acc`, the roster `Refresh` leaves after
        `rows`: it is that roster, and it kept the old keys in order. */
    lemma Finish(r0: Roster, rows: seq<PrinterRow>, fleet: int -> Device, acc: Roster)
      requires Mirrors(acc) && acc == Refresh(r0, rows, fleet).roster
      ensures acc == RosterOf() && r0.ids <= ids && r0.entries.Keys <= printers.Keys
    {
      MirrorsRosterOf(acc);
      RefreshKeeps(r0, rows, fleet);
    }
  }
}
