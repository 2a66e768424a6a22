/** The spreadsheet-backed queue of QueueInterfaceGoogle.py: one job per sheet row, a job's id is its row
    number, and each operation reads or writes cells of the sheet. */
module SheetQueue {
  import opened Outcomes

  /** A cell position, 1-based as in gspread. */
  datatype Coord = Coord(row: int, col: int)

  /** Columns the operations use. */
  const StatusReadColumn: int := 9
  const StatusWriteColumn: int := 5
  const FilenameColumn: int := 3
  const DriveFileColumn: int := 15

  /** What `download_file` asks Google Drive for, and the name it saves and
      returns. */
  datatype DriveRequest = DriveRequest(fileId: Option<string>, filename: Option<string>)

  /** The ids of the rows holding the given cells (the `for cell in ...:
      set.add(cell.row)` loops). */
  method RowsOf(cells: set<Coord>) returns (rows: set<int>)
    ensures forall r :: r in rows <==> exists c :: c in cells && c.row == r
  {
    rows := {};
    var rest := cells;
    while rest != {}
      invariant rest <= cells
      invariant forall r :: r in rows <==> exists c :: c in cells - rest && c.row == r
      decreases rest
    {
      var c :| c in rest;
      rows := rows + {c.row};
      rest := rest - {c};
    }
  }

  /** A non-empty set of integers has an element. */
  lemma Inhabited(s: set<int>)
    requires s != {}
    ensures exists x :: x in s
  {
    if forall x :: x !in s {
      assert false;
    }
  }

  /** `sorted(list(s))[0]` on a non-empty set: its least element. */
  method Smallest(s: set<int>) returns (m: int)
    requires s != {}
    ensures m in s
    ensures forall x :: x in s ==> m <= x
  {
    Inhabited(s);
    m :| m in s;
    var seen: set<int> := {m};
    var rest := s - {m};
    while rest != {}
      invariant rest <= s && m in s
      invariant seen == s - rest
      invariant forall x :: x in seen ==> m <= x
      decreases rest
    {
      Inhabited(rest);
      var x :| x in rest;
      if x < m {
        m := x;
      }
      rest := rest - {x};
      seen := seen + {x};
    }
    assert seen == s;
  }

  class Worksheet {
    /** The non-empty cells of the sheet. */
    var cells: map<Coord, string>

    /** gspread numbers rows and columns from 1. */
    ghost predicate Valid()
      reads this
    {
      forall c :: c in cells ==> c.row >= 1 && c.col >= 1
    }

    constructor (cells: map<Coord, string>)
      requires forall c :: c in cells ==> c.row >= 1 && c.col >= 1
      ensures Valid() && this.cells == cells
    {
      this.cells := cells;
    }

    /** `worksheet.cell(row, col).value`: None for an empty cell. */
    function Cell(row: int, col: int): (r: Option<string>)
      reads this
      ensures r.Some? <==> Coord(row, col) in cells
      ensures r.Some? ==> r.value == cells[Coord(row, col)]
    {
      if Coord(row, col) in cells then Some(cells[Coord(row, col)]) else None
    }

    /** `worksheet.findall(value)`: the cells whose value is exactly `value`. */
    function FindAll(value: string): (r: set<Coord>)
      reads this
      ensures forall c :: c in r <==> c in cells && cells[c] == value
    {
      set c | c in cells && cells[c] == value
    }

    /** Some cell of row `row` holds exactly `value`. */
    ghost predicate RowHolds(row: int, value: string)
      reads this
    {
      exists c :: c in cells && c.row == row && cells[c] == value
    }

    /** `get_next_print(type)`: the least row that has a cell "Queued" and a
        cell equal to the type; IndexError when there is none. The initial
        `print_id = 0` is never returned. */
    method GetNextPrint(printerType: string) returns (r: Result<int>)
      requires Valid()
      ensures r.Ok? ==> r.value >= 1
      ensures r.Ok? ==> RowHolds(r.value, "Queued") && RowHolds(r.value, printerType)
      ensures r.Ok? ==> forall q :: RowHolds(q, "Queued") && RowHolds(q, printerType) ==> r.value <= q
      ensures r.Raised? ==> r.error == IndexError
      ensures r.Raised? <==> forall q :: !(RowHolds(q, "Queued") && RowHolds(q, printerType))
    {
      var queuedSet := RowsOf(FindAll("Queued"));
      var printerSet := RowsOf(FindAll(printerType));
      var validSet := queuedSet * printerSet;
      assert forall q :: q in validSet <==> RowHolds(q, "Queued") && RowHolds(q, printerType) by {
        forall q ensures q in queuedSet <==> RowHolds(q, "Queued") {
          if RowHolds(q, "Queued") {
            var c :| c in cells && c.row == q && cells[c] == "Queued";
            assert c in FindAll("Queued");
          }
        }
        forall q ensures q in printerSet <==> RowHolds(q, printerType) {
          if RowHolds(q, printerType) {
            var c :| c in cells && c.row == q && cells[c] == printerType;
            assert c in FindAll(printerType);
          }
        }
      }
      if validSet == {} {
        r := Raised(IndexError);
      } else {
        var m := Smallest(validSet);
        var c :| c in cells && c.row == m && cells[c] == "Queued";
        r := Ok(m);
      }
    }

    /** `get_status(row)` reads column 9. */
    function GetStatus(row: int): (r: Option<string>)
      reads this
      ensures r.Some? <==> Coord(row, 9) in cells
      ensures r.Some? ==> r.value == cells[Coord(row, 9)]
    {
      Cell(row, StatusReadColumn)
    }

    /** `update_status(row, s)` writes column 5 of that row and nothing else. */
    method UpdateStatus(row: int, newStatus: string)
      requires Valid() && row >= 1
      modifies this
      ensures Valid()
      ensures cells == old(cells)[Coord(row, StatusWriteColumn) := newStatus]
      ensures Cell(row, StatusWriteColumn) == Some(newStatus)
      ensures GetStatus(row) == old(GetStatus(row))
      ensures forall c :: c in old(cells) && c != Coord(row, StatusWriteColumn) ==> c in cells && cells[c] == old(cells)[c]
    {
      cells := cells[Coord(row, StatusWriteColumn) := newStatus];
    }

    /** `mark_running(row)` writes "Running" into column 5 of the row. */
    method MarkRunning(row: int)
      requires Valid() && row >= 1
      modifies this
      ensures Valid()
      ensures cells == old(cells)[Coord(row, StatusWriteColumn) := "Running"]
    {
      UpdateStatus(row, "Running");
    }

    /** `download_file(row)`: the Drive file id from column 15 and the name
        from column 3, which is also what it returns. */
    function DownloadFile(row: int): (r: DriveRequest)
      reads this
      ensures r.fileId == Cell(row, DriveFileColumn)
      ensures r.filename == Cell(row, FilenameColumn)
    {
      DriveRequest(Cell(row, DriveFileColumn), Cell(row, FilenameColumn))
    }
  }
}
