/** File names, job ids and the G-code text the supervisor writes
    (app/Supervisor.py, lines 158-192). */
module Gcode {
  import opened Outcomes

  predicate IsDigit(c: char) { '0' <= c <= '9' }

  function DigitChar(d: nat): (c: char)
    requires d < 10
    ensures IsDigit(c) && c as int - '0' as int == d
  {
    (d + '0' as int) as char
  }

  /** `str(n)` for a non-negative integer: its decimal digits, no leading zero. */
  function NatToString(n: nat): (s: string)
    ensures |s| > 0
    ensures forall i :: 0 <= i < |s| ==> IsDigit(s[i])
    ensures |s| > 1 ==> s[0] != '0'
  {
    if n < 10 then [DigitChar(n)] else NatToString(n / 10) + [DigitChar(n % 10)]
  }

  function DigitValue(c: char): nat
    requires IsDigit(c)
  {
    c as int - '0' as int
  }

  /** The value of a string of decimal digits, most significant first. */
  function DigitsValue(s: string): nat
    requires forall i :: 0 <= i < |s| ==> IsDigit(s[i])
  {
    if s == [] then 0
    else DigitsValue(s[..|s| - 1]) * 10 + DigitValue(s[|s| - 1])
  }

  /** How the database reads an id written into a SQL statement as text: a
      non-empty run of digits is that number, anything else is no number. */
  function ParseNat(s: string): (r: Option<nat>)
    ensures r.Some? <==> (|s| > 0 && forall i :: 0 <= i < |s| ==> IsDigit(s[i]))
  {
    if |s| > 0 && forall i :: 0 <= i < |s| ==> IsDigit(s[i]) then Some(DigitsValue(s)) else None
  }

  lemma {:induction false} DigitsValueOfNatToString(n: nat)
    ensures DigitsValue(NatToString(n)) == n
  {
    if n >= 10 {
      var s := NatToString(n);
      assert s[..|s| - 1] == NatToString(n / 10);
      DigitsValueOfNatToString(n / 10);
    }
  }

  /** Reading back a printed id gives the id. */
  lemma ParseNatToString(n: nat)
    ensures ParseNat(NatToString(n)) == Some(n)
  {
    DigitsValueOfNatToString(n);
  }

  /** `name.split('.')[0]`: everything before the first dot, or the whole
      name when it has none. */
  function JobIdOf(name: string): (r: string)
    ensures r <= name
    ensures '.' !in r
    ensures |r| < |name| ==> name[|r|] == '.'
  {
    if name == [] || name[0] == '.' then [] else [name[0]] + JobIdOf(name[1..])
  }

  /** The three facts in JobIdOf's contract fix its result. */
  lemma {:induction false} JobIdOfDotted(p: string, q: string)
    requires '.' !in p
    ensures JobIdOf(p + "." + q) == p
  {
    if p != [] {
      assert (p + "." + q)[1..] == p[1..] + "." + q;
      JobIdOfDotted(p[1..], q);
    }
  }

  /** The name `str(id) + ".gcode"` given to a downloaded job. */
  function GcodeName(id: nat): string
  {
    NatToString(id) + ".gcode"
  }

  /** The id taken from a working-folder entry named by GcodeName is the job's
      id again: line 158 undoes the naming of lines 178 and 184. */
  lemma JobIdOfGcodeName(id: nat)
    ensures JobIdOf(GcodeName(id)) == NatToString(id)
    ensures ParseNat(JobIdOf(GcodeName(id))) == Some(id)
  {
    var p := NatToString(id);
    assert forall i :: 0 <= i < |p| ==> p[i] != '.';
    assert GcodeName(id) == p + "." + "gcode";
    JobIdOfDotted(p, "gcode");
    ParseNatToString(id);
  }

  /** Path of a job inside the working folder, as given to `move` and `select`. */
  function WorkingPath(workingFolder: string, idText: string): string
  {
    workingFolder + "/" + idText + ".gcode"
  }

  /** Path of a finished job as given to `delete`. */
  function DeletePath(workingFolder: string, idText: string): string
  {
    "local/" + workingFolder + "/" + idText + ".gcode"
  }

  /** Name of the pause job sent after a failed print. */
  const PauseFileName: string := "0.gcode"

  /** Content of the pause job: show the failed id, wait for the operator
      (M0), then show Idle. */
  function PauseFile(idText: string): string
  {
    "\nM117 ID#" + idText + " failed\nM0\nM117 Idle\n"
  }

  /** The line appended to every job so that the printer waits for the
      operator once it has finished. */
  const EndOfPrintPause: string := "\nM0; Pause to allow user to confirm completion or failure\n"

  /** A downloaded job with the end-of-print pause appended: the artifact
      comes first, unchanged, and the pause line ends the file. */
  function WithEndPause(artifact: string): (r: string)
    ensures |r| == |artifact| + |EndOfPrintPause|
    ensures r[..|artifact|] == artifact
    ensures r[|artifact|..] == EndOfPrintPause
  {
    artifact + EndOfPrintPause
  }
}
