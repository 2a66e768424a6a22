/** The OctoPrint client as the supervisor sees it. Queries (connecting,
    `printer()`, `files()`) are answered by a `Device`, which says what each
    query returns or raises; commands (`upload`, `move`, `select`, `delete`)
    are recorded, in the order issued, as `Command`s. */
module Octo {
  import opened Outcomes

  /** A connected `octorest.OctoRest` handle. */
  datatype Client = Client(url: string, apiKey: Option<string>)

  /** The part of `printer()`'s reply the model keeps: `['state']['text']`. */
  datatype Status = Status(text: string)

  /** `prints` metadata of a file: `success` and `last.printTime`. */
  datatype PrintStats = PrintStats(success: bool, lastPrintTime: int)

  /** One child of a `files(folder, True)` listing. A file that has never
      finished printing has no `prints` entry. `filamentLength` is
      `gcodeAnalysis.filament.tool0.length`. */
  datatype FileEntry = FileEntry(name: string, prints: Option<PrintStats>, filamentLength: int)

  /** What one printer's OctoPrint server answers during a cycle: whether
      creating a client fails (and how), the `printer()` reply and the
      listing of the working folder. */
  datatype Device = Device(
    connect: Option<ErrorKind>,
    status: Result<Status>,
    folder: Result<seq<FileEntry>>)

  /** A command sent to the printer with the given supervisor id. */
  datatype Command =
    | Upload(printer: int, path: string, content: string)
    | Move(printer: int, source: string, destination: string)
    | Select(printer: int, path: string, startPrint: bool)
    | Delete(printer: int, path: string)
}
