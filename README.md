# Print-farm supervisor, modelled in Dafny

The system runs a farm of 3D printers, each driven by an OctoPrint server.
Print jobs wait in a queue, which is a MariaDB table of prints (an earlier
version kept the queue in a Google spreadsheet). A supervisor runs a polling
loop. On each pass it:

- refreshes every printer's state;
- looks inside each idle ("Operational") printer's working folder for a
  finished job, and marks that job Complete or Failed in the queue;
- hands the printer the oldest queued job of its type, and marks that job
  Running.

This project models that core and proves properties of it.

| source file | modules |
|---|---|
| app/Supervisor.py | `PrinterState` (the printer's connection state machine as functions), `Registry` (`refresh_printers` as functions on the dictionary of printers), `Orchestration` (`check_printer_states` as a function), `Farm` (the `Printer` and `Supervisor` classes, whose methods are proved against those functions), `Gcode` (job ids, file names and the generated G-code text) |
| app/QueueInterface.py | `PrintTable` (the `prints` and `printers` tables and the semantics of their queries), `Queue` (the `QueueInterface` class over those tables) |
| QueueInterface.py | `LegacyQueue` |
| QueueInterfaceGoogle.py | `SheetQueue` (a worksheet as a map from (row, column) to cell text) |
| Supervisor.py | `Prototype` |
| shared | `Outcomes` (`Option`, `Result`, exception kinds), `Octo` (what an OctoPrint server answers, and the commands sent to it) |

Conventions used throughout the model:

- **Exceptions.** A Python exception is a `Raised(kind)` result. An exception
  that the code does not catch is passed on as the caller's own result.
- **The OctoPrint server.** Each server is an oracle, a `Device`. It says how
  creating the client fails (if it does), what `printer()` returns or
  raises, and what `files(folder, True)` lists.
- **Commands.** `upload`, `move`, `select` and `delete` are returned, in the
  order they are sent, as a list of `Command`s.
- **Google Drive.** Drive is a function from a file id to the file's text.
- **The clock.** `CURRENT_TIMESTAMP` is a `now` argument.
- **Configuration.** The working folder is a constant field of the supervisor.
- **Tables.** A table is a sequence of rows in storage order, and `id` is
  the primary key of both `prints` and `printers`.
- **The printers dictionary.** It is a map plus the sequence of its keys in
  insertion order, which is the order in which Python iterates it.

## Model

| member | source | states |
|---|---|---|
| Gcode.JobIdOf | app/Supervisor.py:158 | `name.split('.')[0]`: the longest prefix of the name with no `.`; when shorter than the name it is followed by a `.` |
| Gcode.JobIdOfDotted | app/Supervisor.py:158 | the id of `p + "." + q` is `p` whenever `p` has no dot |
| Gcode.JobIdOfGcodeName | app/Supervisor.py:158 | the id read back from a working file named `<id>.gcode` is `str(id)` and denotes `id` again |
| Gcode.NatToString | app/Supervisor.py:178 | `str(id)`: non-empty, all decimal digits, no leading zero |
| Gcode.ParseNat | app/QueueInterface.py:199 | text spliced into `WHERE id = ...` denotes a number exactly when it is a non-empty string of digits |
| Gcode.ParseNatToString | app/Supervisor.py:178 | decimal printing followed by parsing is the identity on ids |
| Gcode.GcodeName | app/Supervisor.py:178 | the name `str(id) + ".gcode"` under which a job is downloaded and uploaded |
| Gcode.WorkingPath | app/Supervisor.py:184-188 | the path `<working folder>/<id>.gcode` that `move` and `select` are given |
| Gcode.DeletePath | app/Supervisor.py:162 | the path `local/<working folder>/<id>.gcode` that `delete` is given for a finished job |
| Gcode.PauseFile | app/Supervisor.py:167-168 | the pause job's text: show "ID#<id> failed", wait for the operator with M0, then show "Idle" |
| Gcode.WithEndPause | app/Supervisor.py:180-181 | the job sent to the printer is the downloaded file followed by exactly the end-of-print pause text |
| PrintTable.StatusOf | app/QueueInterface.py:131-146 | `get_status`: the status column of the row with the id, and None when the row is missing |
| PrintTable.NextPrint | app/QueueInterface.py:206-226 | `get_next_print`: the id of `Earliest`'s row, or 0 when there is none (its properties are NextPrintIsFifo and NextPrintZero) |
| PrintTable.WithStatus | app/QueueInterface.py:148-159 | `update_status`: the UPDATE that sets the status column of the rows with the id (its properties are StatusAfterUpdate and LookupAfterUpdate) |
| PrintTable.MarkedRunning | app/QueueInterface.py:161-174 | `mark_running`: the UPDATE that sets start time, assigned printer and status Running (its properties are MarkedRunningRow and LookupAfterUpdate) |
| PrintTable.MarkedFinished | app/QueueInterface.py:176-204 | `mark_failed` and `mark_complete`: the UPDATE that sets finish time and the final status (its property is MarkedFinishedRow) |
| PrintTable.Lookup | app/QueueInterface.py:118-129 | `fetchone` by id: None exactly when no row has the id, otherwise a row of the table with that id |
| PrintTable.LookupUnique | app/QueueInterface.py:120-126 | under the primary key the row fetched for an id is the row holding it |
| PrintTable.Earliest | app/QueueInterface.py:209-218 | a Queued row of the type whose `added` is minimal among such rows; none exactly when no such row exists |
| PrintTable.NextPrintIsFifo | app/QueueInterface.py:206-223 | a nonzero `get_next_print(t)` is the id of a Queued row of type `t` added no later than any other |
| PrintTable.NextPrintZero | app/QueueInterface.py:224-226 | with positive ids, `get_next_print(t)` is 0 exactly when no Queued row of type `t` exists |
| PrintTable.FifoOrder | app/QueueInterface.py:212-215 | of two queued jobs of one type, the one added later is never picked |
| PrintTable.UpdateWhere | app/QueueInterface.py:152-157 | an `UPDATE ... WHERE id = x` changes exactly the rows with id `x`, and keeps the table's length |
| PrintTable.UpdateKeepsIds | app/QueueInterface.py:152-157 | the updates never change an id, so the primary key keeps holding |
| PrintTable.LookupAfterUpdate | app/QueueInterface.py:148-159 | after updating row `x`, fetching `x` gives the changed row and fetching any other id gives what it gave before |
| PrintTable.StatusAfterUpdate | app/QueueInterface.py:131-159 | after `update_status(x, s)`, the status of `x` is `s` if the row exists and None if it does not; other rows keep their status |
| PrintTable.MarkedRunningRow | app/QueueInterface.py:161-172 | `mark_running(x, p)` sets status Running, assigned printer `p` and start time to the clock on row `x`, and changes nothing else |
| PrintTable.MarkedFinishedRow | app/QueueInterface.py:176-204 | `mark_failed` and `mark_complete` set status and finish time on row `x` only, whatever its status was |
| PrintTable.FinishedNotMonotonic | app/QueueInterface.py:176-204 | nothing enforces the order of statuses: a Complete job can be marked Failed |
| PrintTable.DownloadName | app/QueueInterface.py:229-247 | the file name `download_file` returns: None for a missing row, otherwise the override if given, else the stored gcode filename |
| PrintTable.CollectTypes | app/QueueInterface.py:91-103 | the loop's set is exactly the set of `type` values in `printers` |
| Queue.QueueInterface.GetValidPrinters | app/QueueInterface.py:91-103 | exactly the set of printer types in the table |
| Queue.QueueInterface.GetDetails | app/QueueInterface.py:105-129 | the whole row with that id, or None when there is none |
| Queue.QueueInterface.GetStatus | app/QueueInterface.py:131-146 | None exactly for a missing id, otherwise the status of a row with that id |
| Queue.QueueInterface.UpdateStatus | app/QueueInterface.py:148-159 | only row `id`'s status changes; `get_status(id)` then returns the new status, and every other id's status is unchanged |
| Queue.QueueInterface.MarkRunning | app/QueueInterface.py:161-174 | the table becomes `MarkedRunning` of the old one, the primary key holds, and the job's status is Running |
| Queue.QueueInterface.MarkFailed | app/QueueInterface.py:176-189 | the table becomes `MarkedFinished(.., "Failed", now)` of the old one, and the job's status is Failed |
| Queue.QueueInterface.MarkComplete | app/QueueInterface.py:191-204 | the table becomes `MarkedFinished(.., "Complete", now)` of the old one, and the job's status is Complete |
| Queue.QueueInterface.MarkFinished | app/QueueInterface.py:176-204 | the UPDATE both final marks share: the table becomes `MarkedFinished` of the old one, the primary key holds, the `printers` table is untouched, and an existing job's status is the one given |
| Queue.QueueInterface.GetAllPrinterDetails | app/QueueInterface.py:258-268 | `SELECT id, name, type, ip address, api key FROM printers`: every row of `printers`, in storage order |
| Queue.QueueInterface.GetNextPrint | app/QueueInterface.py:206-226 | a nonzero result is a Queued job of the type with minimal `added`; 0 when there is none, and with positive ids 0 only then |
| Queue.QueueInterface.DownloadFile | app/QueueInterface.py:229-247 | None exactly for a missing id; the override when given, else the row's gcode filename |
| LegacyQueue.QueueInterface.GetValidPrinters | QueueInterface.py:31-43 | exactly the set of printer types in the table |
| LegacyQueue.QueueInterface.GetStatus | QueueInterface.py:58-72 | None exactly for a missing id, otherwise the status of a row with that id |
| LegacyQueue.QueueInterface.UpdateStatus | QueueInterface.py:74-84 | only the status of row `id` changes; `get_status` then gives the new value, or None for a missing id |
| LegacyQueue.QueueInterface.MarkRunning | QueueInterface.py:86-87 | exactly `update_status(id, "Running")`: no printer is assigned, and no start or finish times change |
| LegacyQueue.QueueInterface.GetAllPrinterDetails | QueueInterface.py:138-146 | every row of `printers`, in storage order |
| LegacyQueue.QueueInterface.GetNextPrint | QueueInterface.py:89-108 | a nonzero result is a Queued row of the type with minimal `added`; 0 when there is none |
| LegacyQueue.QueueInterface.DownloadFile | QueueInterface.py:111-128 | None exactly for a missing row; the override when given, else the stored filename |
| SheetQueue.RowsOf | QueueInterfaceGoogle.py:59-67 | the loops collect exactly the row numbers of the cells found |
| SheetQueue.Smallest | QueueInterfaceGoogle.py:70 | `sorted(list(s))[0]` on a non-empty set is its least element |
| SheetQueue.Worksheet.FindAll | QueueInterfaceGoogle.py:59 | `findall(v)`: exactly the cells whose text is `v` |
| SheetQueue.Worksheet.GetNextPrint | QueueInterfaceGoogle.py:48-70 | the least row that has a "Queued" cell and a cell holding the type; IndexError exactly when there is no such row; the initial 0 is never returned |
| SheetQueue.Worksheet.GetStatus | QueueInterfaceGoogle.py:39-40 | reads cell (row, 9), None when it is empty |
| SheetQueue.Worksheet.UpdateStatus | QueueInterfaceGoogle.py:42-43 | writes cell (row, 5) and no other cell, so `get_status` of that row, which reads column 9, does not see the write |
| SheetQueue.Worksheet.MarkRunning | QueueInterfaceGoogle.py:45-46 | writes "Running" into cell (row, 5) |
| SheetQueue.Worksheet.DownloadFile | QueueInterfaceGoogle.py:73-83 | the Drive file id comes from cell (row, 15) and the returned name from cell (row, 3) |
| PrinterState.StartClient | app/Supervisor.py:56-66 | `start_client` as a transition: the fields after the call and the result or exception (its properties are StartClientOutcomes) |
| PrinterState.QueryStatus | app/Supervisor.py:103-110 | the `try` around `client.printer()`: the reply, or the status built for ConnectionError, RuntimeError and AttributeError (the last also when there is no client); other exceptions propagate |
| PrinterState.FullStatus | app/Supervisor.py:102-112 | `get_full_status`: an Octoprint Offline or Invalid printer gets its own state back without a query; any other asks `QueryStatus` |
| PrinterState.UpdateState | app/Supervisor.py:81-89 | `update_state(force)` as a transition (its properties are InvalidIsSticky, OfflineUnforcedIsNoop, OfflineForcedReconnectStaysOffline, OfflineForcedReconnectFails, OfflineOnlyBecomesInvalid, UpdateFromLiveState, UpdateWithoutClient and UpdateIdempotent) |
| PrinterState.Boot | app/Supervisor.py:42-46 | `Printer.__init__`: state and client None, then `start_client()` and, unless that raised, `update_state()` (its properties are BootConnected and BootUnreachable) |
| PrinterState.StartClientOutcomes | app/Supervisor.py:56-66 | success exactly when the url is set and connecting raises nothing; then True, the new client, and the state untouched. ConnectionError or RuntimeError gives Octoprint Offline; TypeError or a None url gives Invalid; both return False and keep the client. Anything else propagates with nothing changed |
| PrinterState.InvalidIsSticky | app/Supervisor.py:81-82 | an Invalid printer's update returns False and changes nothing, forced or not |
| PrinterState.OfflineUnforcedIsNoop | app/Supervisor.py:83-85 | an unforced update of an Octoprint Offline printer returns False and changes nothing |
| PrinterState.OfflineForcedReconnectStaysOffline | app/Supervisor.py:83-88 | a forced update whose reconnect succeeds returns True with the new client, but the state stays Octoprint Offline, because `get_full_status` echoes the state (lines 102, 111-112) |
| PrinterState.OfflineForcedReconnectFails | app/Supervisor.py:83-85 | a forced update whose reconnect fails returns False and keeps the old client |
| PrinterState.OfflineOnlyBecomesInvalid | app/Supervisor.py:83-88 | from Octoprint Offline an update leads only to Octoprint Offline or Invalid, and to Invalid exactly on a forced reconnect with a None url or a TypeError |
| PrinterState.UpdateFromLiveState | app/Supervisor.py:86-89 | from any other state with a client: the device's state text, or Octoprint Offline, Printer Offline or Invalid after ConnectionError, RuntimeError or AttributeError (lines 103-110); True; the client untouched |
| PrinterState.UpdateWithoutClient | app/Supervisor.py:102-110 | a printer with no client goes to Invalid, because `None.printer()` raises AttributeError |
| PrinterState.UpdateIdempotent | app/Supervisor.py:68-112 | a second unforced update against an unchanged device changes nothing more |
| PrinterState.BootConnected | app/Supervisor.py:42-46 | a new printer whose client is created ends in the state its device reports, with the client |
| PrinterState.BootUnreachable | app/Supervisor.py:42-46 | a new printer that cannot connect has no client and an offline or invalid state, and its constructor's `update_state()` returns False |
| Farm.Printer.Init | app/Supervisor.py:45-46 | the state and client after `start_client()` then `update_state()` are those of `Boot`, and a reachable device's state is adopted |
| Farm.Printer.StartClient | app/Supervisor.py:48-66 | the new fields and result are `PrinterState.StartClient`'s; True exactly for a set url and a clean connect; failure keeps the client |
| Farm.Printer.FullStatus | app/Supervisor.py:91-112 | an offline or invalid printer gets its own state back; otherwise the device's reply, or Invalid when there is no client |
| Farm.Printer.UpdateState | app/Supervisor.py:68-89 | the new fields and result are `PrinterState.UpdateState`'s; an Invalid printer returns False and keeps its state |
| Registry.NewEntry | app/Supervisor.py:140 | the Printer built for a new row: the row's name, type, address and api key, with the state and client `Boot` leaves |
| Registry.ForcedUpdate | app/Supervisor.py:142 | a registered Printer after `update_state(True)`: the same fields, with the state and client of `PrinterState.UpdateState` |
| Registry.RefreshRow | app/Supervisor.py:138-142 | one pass of the loop: a row without an api key is skipped; a new id gets `NewEntry`, stored and appended to the key order unless `Boot` raised; a known id gets `ForcedUpdate` and raises what that update raises |
| Registry.Refresh | app/Supervisor.py:134-142 | `refresh_printers`: `RefreshRow` on every row of `printers` in order, until one raises |
| Registry.RefreshStops | app/Supervisor.py:137-142 | once a row raised, the rows after it are not visited |
| PrintTable.KeyedIdsMembers | app/Supervisor.py:137-138 | an id is among the keyed ids exactly when some row of `printers` with an api key carries it |
| Registry.RefreshGrows | app/Supervisor.py:137-142 | a refresh only appends keys and never drops an entry; every key it adds is the id of a row with an api key and was not a key before |
| Registry.RefreshUntouched | app/Supervisor.py:137-142 | a printer that no row carries keeps its entry, whether or not the refresh raised |
| Registry.RefreshOutcome | app/Supervisor.py:137-142 | under the primary key of `printers`, a refresh that raised nothing leaves under every keyed row's id either the old Printer after exactly one forced update, or, for a new id, the Printer built from the row |
| Registry.RefreshCovers | app/Supervisor.py:137-142 | a refresh that raised nothing leaves an entry under every row with an api key |
| Farm.Supervisor.AddPrinter | app/Supervisor.py:139-140 | a new id gets one fresh Printer whose entry is `Registry.NewEntry` of the row, appended to the key order, and no other printer changes; when the constructor raises, nothing is stored and the exception is `Boot`'s |
| Farm.Supervisor.ForceUpdate | app/Supervisor.py:142 | the Printer under the row's id gets `update_state(True)`: the dictionary becomes `Registry.RefreshRow`'s, with its exception, and no other printer changes |
| Farm.Supervisor.RefreshRow | app/Supervisor.py:137-142 | one pass of the loop: the dictionary and the exception are those of `Registry.RefreshRow`; old ids keep their objects and new entries are fresh |
| Farm.Supervisor.RefreshPrinters | app/Supervisor.py:134-142 | the dictionary and the exception are those of `Registry.Refresh` over the rows of `printers`, whose properties the `Registry` lemmas state; old ids keep their objects and new entries are fresh |
| Farm.Supervisor.UpdatePrinterStates | app/Supervisor.py:144-147 | it ends normally exactly when no printer's `update_state(force)` raises, and then every printer holds its updated state; otherwise the exception is that of the first printer whose update raised (every update before it returned), that printer and those before it hold their updated states, and those after it are as they were |
| Farm.Supervisor.StartNext | app/Supervisor.py:176-192 | the table and commands after next-job assignment are those of `Orchestration.Assign` |
| Farm.Supervisor.CheckPrinter | app/Supervisor.py:152-192 | the table, the commands and the exception for one printer are those of `Orchestration.CheckOne` |
| Farm.Supervisor.CheckNext | app/Supervisor.py:151-153 | checking the next printer in dictionary order extends `Orchestration.CheckAll` over the printers before it by that printer's `CheckOne` |
| Farm.Supervisor.CheckPrinterStates | app/Supervisor.py:149-192 | the table, the commands and the exception are those of `Orchestration.CheckAll` over the printers in dictionary order, whose properties the `Orchestration` lemmas state |
| Farm.Supervisor.RunCycle | app/Supervisor.py:200-208 | when a forced update raises, the pass ends before the check with the exception of the first printer in dictionary order whose update raised: nothing is sent and the prints table is as it was; when none raises, every printer holds its updated state, the check runs on those states, and the pass raises exactly the check's exception, if any |
| Farm.CheckAllStops | app/Supervisor.py:151-174 | an exception other than IndexError ends the loop: later printers are not checked |
| Orchestration.Assign | app/Supervisor.py:176-192 | next-job assignment: nothing without a queued job; otherwise the upload, move and select of `<id>.gcode` with the end pause, then the job is `MarkedRunning` on this printer (its properties are AssignCases, AssignKeepsKeys and AssignKeepsTypes) |
| Orchestration.Finish | app/Supervisor.py:158-172 | the report of the first working-folder entry, with the completion call corrected to `mark_complete(id)` (its properties are SuccessfulPrintCompletes and FailedPrintSendsPause) |
| Orchestration.FinishAsWritten | app/Supervisor.py:158-172 | the same report with line 161's four-argument call bound first, which raises before any SQL (its property is CompletionCallAsWrittenRaises) |
| Orchestration.CheckOne | app/Supervisor.py:152-192 | the loop body for one printer: only an Operational one is looked at; an empty folder leads to `Assign`, a first entry to `Finish`, and other exceptions end the check |
| Orchestration.CheckAll | app/Supervisor.py:149-192 | the printers in dictionary order, each checked against the table the previous ones left, until one raises (its properties are CheckAllSnoc, CheckAllKeepsKeys and CheckAllKeepsTypes) |
| Orchestration.CheckAllSnoc | app/Supervisor.py:151-153 | the printers are checked one after another, each against the table the previous ones left |
| Orchestration.OnlyOperationalIsChecked | app/Supervisor.py:153 | a printer whose state is not exactly Operational is skipped |
| Orchestration.AssignCases | app/Supervisor.py:176-192 | with no queued job nothing happens; otherwise upload of `<id>.gcode` with the end pause, the move into the working folder, and the select with print, in that order; then the job is Running on this printer |
| Orchestration.EmptyFolderStartsEarliest | app/Supervisor.py:173-191 | an empty working folder (IndexError) leads to the earliest queued job of the printer's type being sent and marked Running |
| Orchestration.EmptyFolderNoJob | app/Supervisor.py:176-177 | with an empty folder and no queued job of the type nothing changes |
| Orchestration.FailedPrintSendsPause | app/Supervisor.py:163-172 | a failed print: the step is exactly this: the job is marked Failed; `0.gcode` with the pause text is uploaded and selected; the failed file is deleted; no job is assigned (`continue`) |
| Orchestration.SuccessfulPrintCompletes | app/Supervisor.py:159-162 | a successful print: the job is marked Complete, the delete of its file is the first command sent, and then `Assign` runs for the printer's type exactly as on an empty folder (line 176); the job stays Complete through that assignment |
| Orchestration.CompletionArgs | app/Supervisor.py:161 | the four arguments of the completion call: job id, printer id, print time and three times the filament length |
| Orchestration.CompletionArgsExample | app/Supervisor.py:161 | a 3600 s print using 1000 mm of filament reports 3600 and 3000 |
| Orchestration.BindMarkComplete | app/QueueInterface.py:191 | a call binds to `mark_complete(self, print_id)` exactly when it passes one argument; otherwise it raises TypeError |
| Orchestration.CompletionCallAsWrittenRaises | app/Supervisor.py:161 | as written, every successful print raises TypeError there and leaves the table and commands untouched |
| Orchestration.UpdateSameKeys | app/QueueInterface.py:161-204 | the updates keep the table's length and the id at every position |
| Orchestration.AssignKeepsKeys | app/Supervisor.py:176-192 | assignment keeps the table's keys and only appends commands |
| Orchestration.CheckOneKeepsKeys | app/Supervisor.py:152-192 | checking a printer keeps the table's keys and only appends commands |
| Orchestration.CheckAllKeepsKeys | app/Supervisor.py:149-192 | a whole check keeps the keys, so the primary key keeps holding, and only appends commands |
| Orchestration.AssignKeepsTypes | app/Supervisor.py:176-191 | a job is only ever handed to a printer of its own type |
| Orchestration.CheckOneKeepsTypes | app/Supervisor.py:152-192 | checking a printer keeps every Running job on a printer of the job's type |
| Orchestration.CheckAllKeepsTypes | app/Supervisor.py:149-192 | a whole check keeps every Running job on a printer of the job's type |
| Orchestration.FirstCycleStartsEarlierJob | app/Supervisor.py:173-191 | an idle printer of type A with an empty folder, facing two queued A jobs, is handed the one added first and that job alone is marked Running |
| Orchestration.BusyPrinterIsLeftAlone | app/Supervisor.py:151-153 | a printer whose forced update reads "Printing" is skipped by the check, which changes nothing |
| Orchestration.TwoJobScenario | app/Supervisor.py:149-192 | one idle printer of type A and two queued A jobs: the first cycle starts the earlier job on that printer and leaves the later one Queued; the next cycle, with the printer Printing, changes nothing |
| Prototype.Started | Supervisor.py:17-31 | `start_client`: the client is created unless the url is None or the connect fails, then `printer()` is read; Python's ConnectionError gives "Offline" and TypeError "Invalid", both returning 0, any other exception propagates, and 1 means success |
| Prototype.NewPrinterState | Supervisor.py:6-31 | a new Printer's `start_client()` returns 1 exactly for a set url, a clean connect and a readable `printer()`, and then it holds the client for its url and key with the state still None; a None url gives "Invalid" and no client; a failed connect leaves no client and gives "Offline", "Invalid" or the exception, with the state None |
| Prototype.Printer.Init | Supervisor.py:15 | the constructor's `start_client()`: the state and client become those `Started` gives for the printer's url and key, the current print is kept, and the result is `Started`'s: 0 or 1, 1 exactly for a set url, a clean connect and a readable `printer()`, with the new client and the state kept; 0 with "Offline" or "Invalid"; an exception with the state kept |
| Prototype.Printer.StartClient | Supervisor.py:17-31 | the state, client and result are `Started`'s. 1 on success with the state left at its constructor value. Python's ConnectionError gives "Offline" and TypeError (also a None url) gives "Invalid", both returning 0. Other exceptions propagate with the state unchanged. This holds both when creating the client fails, which keeps the old client, and when the later flag read fails, which keeps the new client |
| Prototype.NewEntry | Supervisor.py:47 | the Printer built from a row: the row's name, type, address and api key, no current print, and the state and client `Started` leaves on an empty Printer |
| Prototype.RegisterRow | Supervisor.py:45-47 | one pass of the loop: a row without an api key is skipped; otherwise `NewEntry` is stored under the row's id, replacing any entry there and appending a new id to the key order, unless its constructor raised |
| Prototype.Refresh | Supervisor.py:43-47 | `refresh_printers`: `RegisterRow` on every row of `printers` in order, until one raises |
| Prototype.RefreshNext | Supervisor.py:44-47 | the refresh of one more row continues the refresh of the rows before it, unless that refresh already raised |
| Prototype.KeyedPrefix | Supervisor.py:45-46 | every keyed id of the first rows is a keyed id of all of them |
| Prototype.RefreshStops | Supervisor.py:44-47 | once a constructor raised, the later rows change nothing |
| Prototype.RefreshKeeps | Supervisor.py:44-47 | keys are only appended to the key order and never dropped, and an id that no row with an api key carries keeps its entry |
| Prototype.RefreshLastWins | Supervisor.py:44-47 | after a refresh without an exception, the id of every row with an api key holds the Printer built from the LAST such row with that id: its fields are that row's, and its state and client are `Started`'s for that row's url and key |
| Prototype.Supervisor.MirrorsRosterOf | Supervisor.py:41 | only one roster matches the dictionary |
| Prototype.Supervisor.Register | Supervisor.py:46-47 | the dictionary becomes `RegisterRow`'s: a row with an api key gets a fresh Printer with the row's fields, state and client under its id, replacing any old entry; a new id is appended to the key order; other keys keep their Printer; a constructor that raises stores nothing and its exception is the result |
| Prototype.Supervisor.RefreshPrinters | Supervisor.py:43-47 | the dictionary and the exception are `Refresh`'s over the rows of `printers` (so the properties of `RefreshLastWins`, `RefreshKeeps` and `RefreshStops` hold of it); keys are never dropped and keep their order; without an exception, every row with an api key has a fresh Printer under its id; keys no such row carries keep their object; every Printer that is new or replaced is a fresh object |

## Left out

- Email composition and sending (app/QueueInterface.py:42-81): these call the MIME, base64 and Gmail libraries.
- The Google Drive download loop: Drive is a function from file id to text, and only the file name `download_file` picks is modelled.
- The database and spreadsheet connections, `commit`, the authorisation retry with `sleep` in QueueInterfaceGoogle.py, and the YAML configuration. The working folder is a constructor argument.
- Local file writes and removals (`0.gcode`, appending to the downloaded file, `os.remove`). Only the texts they produce are modelled, carried in the upload commands.
- `time.sleep` and the endless `while True` (app/Supervisor.py:200-208). `RunCycle` is one pass; the state printout inside the pass is left out.
- `print` and `logging` output everywhere, and the Tk and console `__main__` blocks of the queue files.
- app/httpserver.py and httpserver.py: an HTTP server with a timer thread. They are outside this model.
- `get_temperatures` (app/Supervisor.py:114-122): the model's `Status` keeps only the state text.
- Prototype `get_status` (Supervisor.py:33-34) and `QueueInterfaceGoogle.get_printers` (a configuration read).
- A "Cooldown" state: no code sets or reads one.
- Exceptions raised by `upload`, `move`, `select` and `delete`: commands always succeed. A failure between `upload` and `mark_running` would leave a job sent but still Queued; that is not modelled.
- Missing keys in the OctoPrint replies: only a missing `prints` entry (KeyError) is modelled. Missing `children`, `last` or `gcodeAnalysis` entries are not.
- Floating point: `int(printTime)` and `int(3 * length)` take integer inputs.
- PrintTable.IsCandidate: compares the status and printer type strings exactly. MariaDB's default collation compares them ignoring case and trailing spaces, so a row typed `a ` or `QUEUED` that the database would pick is not a candidate in the model.
- Ties in `ORDER BY added`: MariaDB may return either row; the model picks the first in storage order.
- SQL text: the model treats a job id taken from a file name as a number only when it is all digits, and any other id as raising a query error (app/QueueInterface.py:185, :200). Ids that MariaDB also reads as numbers are not modelled: a signed literal (`-3.gcode` gives `WHERE id = -3`, which updates no row and raises nothing, after which the source goes on to send the pause job) and an exponent literal (`1e5`). MariaDB's coercion of other strings, and quoting of status strings, are not modelled either.
- `CURRENT_TIMESTAMP` is one `now` per call. A pass of the loop uses a single clock value.
- Farm.Printer.Init: requires state and client to be None, which the constructor guarantees; it is only called there.
- Registry.RefreshOutcome: states the entry of each keyed row only under the primary key of `printers`; for a table with a repeated id, `Registry.Refresh` still defines the outcome, but no lemma describes it.
- Farm.Supervisor.RunCycle: when a forced update raises, it names the first raising printer and its exception but does not restate the state of each printer; `UpdatePrinterStates` states that.
- Job ids are natural numbers (`PrintRow.id: nat`, the `AUTO_INCREMENT` key of `prints`). `str` of a negative id, with its leading `-`, is not modelled.
- The completion call at app/Supervisor.py:161 raises as written (see Findings). `CheckOne`, `CheckAll` and the `Farm` methods `CheckPrinter`, `CheckPrinterStates` and `RunCycle` follow the corrected `Finish`, not `FinishAsWritten`, so they describe the supervisor that the code evidently intends, not the one that stops at the first successful print.
- SheetQueue.Worksheet.UpdateStatus: requires a row number of at least 1. The spreadsheet API's error for smaller rows is not modelled.
- SheetQueue.Worksheet.GetStatus: for a row number below 1 it returns None, because no cell has such a row; the spreadsheet API raises there instead (`cell(0, 9)`), and that error is not modelled.
- The `Supervisor` constructors model the assignments in `__init__`. The `refresh_printers()` call that `__init__` ends with is the caller's first `RefreshPrinters`. The same split applies to `Printer`, where `Init` holds the two calls.
- Prototype `current_print`: its type is never shown, because it is stored and never read; the model gives it an optional integer.

## Findings

| source | as written | input that shows it | evidently intended | confidence | as-written member | corrected member |
|---|---|---|---|---|---|---|
| app/Supervisor.py:161 | The completion call passes four positional arguments: job id, printer id, print time and material. `mark_complete` at app/QueueInterface.py:191 takes only the job id, so the call raises TypeError before any SQL runs. Only IndexError is caught, so the supervisor stops, and the file is never deleted. | any Operational printer whose first working-folder entry has `prints.success` true | the job is marked Complete, its file is deleted, and the printer goes on to its next job (specified as `Orchestration.Finish`) | not executed | Orchestration.CompletionCallAsWrittenRaises | Orchestration.SuccessfulPrintCompletes |

The correction is only to the call's arity. Line 161 passes a duration and
the material used, but the `prints` table has no column for either, and
`mark_complete` writes only the finish time and the status. `Finish`
therefore drops both values; `CompletionArgs` keeps them to show what the
call passed.

One point about the prototype: Supervisor.py names Python's built-in
`ConnectionError`. That class is unrelated to the `requests` exception of
the same name, which app/Supervisor.py imports. So the model keeps two
exception kinds, and in the prototype the `requests` kind propagates
uncaught.
