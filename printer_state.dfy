/** The connection and state machine of `Printer` in app/Supervisor.py as
    pure functions: a printer's `state` and `client` before a call, and the
    device's answers, determine its `state`, `client` and result after it. */
module PrinterState {
  import opened Outcomes
  import opened Octo

  const OctoprintOffline: string := "Octoprint Offline"
  const InvalidState: string := "Invalid"
  const PrinterOffline: string := "Printer Offline"
  const Operational: string := "Operational"

  /** The mutable part of a Printer. */
  datatype Conn = Conn(state: Option<string>, client: Option<Client>)

  /** A Printer's fields after a call, and what the call returned or raised. */
  datatype Transition = Transition(conn: Conn, result: Result<bool>)

  /** The states for which `get_full_status` does not ask the device. */
  predicate Sticky(state: Option<string>)
  {
    state == Some(OctoprintOffline) || state == Some(InvalidState)
  }

  /** `start_client`. `"http://" + url` raises TypeError when the url is None;
      otherwise `connect` says how creating the client fails, if it does. */
  function StartClient(c: Conn, url: Option<string>, apiKey: Option<string>, connect: Option<ErrorKind>): Transition
  {
    var failure := if url.None? then Some(TypeError) else connect;
    if failure.None? then Transition(c.(client := Some(Client(url.value, apiKey))), Ok(true))
    else if failure.value == ConnectionError || failure.value == RuntimeError
    then Transition(c.(state := Some(OctoprintOffline)), Ok(false))
    else if failure.value == TypeError then Transition(c.(state := Some(InvalidState)), Ok(false))
    else Transition(c, Raised(failure.value))
  }

  /** The `try` around `self.client.printer()`: the reply, or the status the
      code builds in place of an exception it catches. */
  function QueryStatus(client: Option<Client>, reply: Result<Status>): Result<Status>
  {
    if client.None? then Ok(Status(InvalidState))   // None.printer() raises AttributeError
    else match reply
      case Ok(s) => Ok(s)
      case Raised(ConnectionError) => Ok(Status(OctoprintOffline))
      case Raised(RuntimeError) => Ok(Status(PrinterOffline))
      case Raised(AttributeError) => Ok(Status(InvalidState))
      case Raised(e) => Raised(e)
  }

  /** `get_full_status`: the device's status, or for an offline or invalid
      printer a status carrying only its current state. */
  function FullStatus(c: Conn, reply: Result<Status>): Result<Status>
  {
    if Sticky(c.state) then Ok(Status(c.state.value)) else QueryStatus(c.client, reply)
  }

  /** `update_state(force)`. */
  function UpdateState(c: Conn, url: Option<string>, apiKey: Option<string>, force: bool, dev: Device): Transition
  {
    if c.state == Some(InvalidState) then Transition(c, Ok(false))
    else if c.state == Some(OctoprintOffline) && !force then Transition(c, Ok(false))
    else
      var t := if c.state == Some(OctoprintOffline) then StartClient(c, url, apiKey, dev.connect)
               else Transition(c, Ok(true));
      if t.result != Ok(true) then t
      else match FullStatus(t.conn, dev.status)
        case Raised(e) => Transition(t.conn, Raised(e))
        case Ok(s) => Transition(t.conn.(state := Some(s.text)), Ok(true))
  }

  /** `Printer.__init__`: state and client start as None, then
      `start_client()` and `update_state()` run. */
  function Boot(url: Option<string>, apiKey: Option<string>, dev: Device): Transition
  {
    var t := StartClient(Conn(None, None), url, apiKey, dev.connect);
    if t.result.Raised? then t else UpdateState(t.conn, url, apiKey, false, dev)
  }

  /** An Invalid printer stays Invalid: `update_state` returns False and
      changes nothing, forced or not. */
  lemma InvalidIsSticky(c: Conn, url: Option<string>, apiKey: Option<string>, force: bool, dev: Device)
    requires c.state == Some(InvalidState)
    ensures UpdateState(c, url, apiKey, force, dev) == Transition(c, Ok(false))
  {
  }

  /** An unforced update of an offline printer returns False without trying
      to reconnect and without changing anything. */
  lemma OfflineUnforcedIsNoop(c: Conn, url: Option<string>, apiKey: Option<string>, dev: Device)
    requires c.state == Some(OctoprintOffline)
    ensures UpdateState(c, url, apiKey, false, dev) == Transition(c, Ok(false))
  {
  }

  /** A forced update of an offline printer whose reconnect succeeds returns
      True and installs the new client, but the state stays Octoprint
      Offline: `get_full_status` only echoes the offline state back. */
  lemma OfflineForcedReconnectStaysOffline(c: Conn, url: string, apiKey: Option<string>, dev: Device)
    requires c.state == Some(OctoprintOffline) && dev.connect.None?
    ensures FullStatus(c.(client := Some(Client(url, apiKey))), dev.status) == Ok(Status(OctoprintOffline))
    ensures UpdateState(c, Some(url), apiKey, true, dev)
            == Transition(Conn(Some(OctoprintOffline), Some(Client(url, apiKey))), Ok(true))
  {
  }

  /** Once Octoprint Offline, a printer never leaves that state through
      `update_state` unless a forced reconnect raises TypeError, which makes
      it Invalid, or raises an exception that propagates. */
  lemma OfflineOnlyBecomesInvalid(c: Conn, url: Option<string>, apiKey: Option<string>, force: bool, dev: Device)
    requires c.state == Some(OctoprintOffline)
    ensures var t := UpdateState(c, url, apiKey, force, dev);
            t.conn.state == Some(OctoprintOffline) || t.conn.state == Some(InvalidState)
    ensures var t := UpdateState(c, url, apiKey, force, dev);
            t.conn.state == Some(InvalidState) <==> force && (url.None? || dev.connect == Some(TypeError))
  {
  }

  /** A forced update of an offline printer whose reconnect fails returns
      False; the state is Octoprint Offline again or, after a TypeError,
      Invalid. */
  lemma OfflineForcedReconnectFails(c: Conn, url: Option<string>, apiKey: Option<string>, dev: Device)
    requires c.state == Some(OctoprintOffline)
    requires url.None? || dev.connect in {Some(ConnectionError), Some(RuntimeError), Some(TypeError)}
    ensures UpdateState(c, url, apiKey, true, dev).result == Ok(false)
    ensures UpdateState(c, url, apiKey, true, dev).conn.client == c.client
  {
  }

  /** From any other state `update_state` adopts the device's state text, or
      the state named after the exception the query raised, and returns
      True; the client is untouched. */
  lemma UpdateFromLiveState(c: Conn, url: Option<string>, apiKey: Option<string>, force: bool, dev: Device)
    requires !Sticky(c.state) && c.client.Some?
    requires dev.status.Ok? || dev.status.error in {ConnectionError, RuntimeError, AttributeError}
    ensures var t := UpdateState(c, url, apiKey, force, dev);
            && t.result == Ok(true)
            && t.conn.client == c.client
            && t.conn.state == Some(match dev.status
                 case Ok(s) => s.text
                 case Raised(ConnectionError) => OctoprintOffline
                 case Raised(RuntimeError) => PrinterOffline
                 case Raised(_) => InvalidState)
  {
  }

  /** A printer that never got a client (`self.client` is None) becomes
      Invalid on its next update: `None.printer()` raises AttributeError. */
  lemma UpdateWithoutClient(c: Conn, url: Option<string>, apiKey: Option<string>, force: bool, dev: Device)
    requires !Sticky(c.state) && c.client.None?
    ensures UpdateState(c, url, apiKey, force, dev) == Transition(Conn(Some(InvalidState), None), Ok(true))
  {
  }

  /** `start_client`: success installs a client and returns True without
      touching the state; ConnectionError and RuntimeError make the printer
      Octoprint Offline, TypeError (also a None url) makes it Invalid, and
      those return False without touching the client. */
  lemma StartClientOutcomes(c: Conn, url: Option<string>, apiKey: Option<string>, connect: Option<ErrorKind>)
    ensures var t := StartClient(c, url, apiKey, connect);
            t.result == Ok(true) <==> url.Some? && connect.None?
    ensures var t := StartClient(c, url, apiKey, connect);
            t.result == Ok(true) ==> t.conn == Conn(c.state, Some(Client(url.value, apiKey)))
    ensures var t := StartClient(c, url, apiKey, connect);
            url.Some? && connect in {Some(ConnectionError), Some(RuntimeError)} ==>
              t == Transition(Conn(Some(OctoprintOffline), c.client), Ok(false))
    ensures var t := StartClient(c, url, apiKey, connect);
            (url.None? || connect == Some(TypeError)) ==>
              t == Transition(Conn(Some(InvalidState), c.client), Ok(false))
    ensures var t := StartClient(c, url, apiKey, connect);
            t.result.Raised? ==> t.conn == c && url.Some? && connect == Some(t.result.error)
  {
  }

  /** Repeating an update against an unchanged device changes nothing more:
      the second update finds the state the first one left. */
  lemma {:induction false} UpdateIdempotent(c: Conn, url: Option<string>, apiKey: Option<string>, dev: Device)
    requires UpdateState(c, url, apiKey, false, dev).result.Ok?
    ensures var once := UpdateState(c, url, apiKey, false, dev).conn;
            UpdateState(once, url, apiKey, false, dev).conn == once
  {
    var once := UpdateState(c, url, apiKey, false, dev).conn;
    if !Sticky(c.state) && !Sticky(once.state) {
      assert once.client == c.client;
      assert FullStatus(once, dev.status) == FullStatus(c, dev.status);
    }
  }

  /** A new printer whose client is created and whose device reports a
      state ends up in that state with a client. */
  lemma BootConnected(url: string, apiKey: Option<string>, dev: Device, s: Status)
    requires dev.connect.None? && dev.status == Ok(s)
    ensures Boot(Some(url), apiKey, dev) == Transition(Conn(Some(s.text), Some(Client(url, apiKey))), Ok(true))
  {
  }

  /** A new printer whose client cannot be created stays offline or invalid:
      the `update_state()` in the constructor returns False. */
  lemma BootUnreachable(url: Option<string>, apiKey: Option<string>, dev: Device)
    requires url.None? || dev.connect in {Some(ConnectionError), Some(RuntimeError), Some(TypeError)}
    ensures Boot(url, apiKey, dev).result == Ok(false)
    ensures Boot(url, apiKey, dev).conn.client.None?
    ensures Sticky(Boot(url, apiKey, dev).conn.state)
  {
  }
}
