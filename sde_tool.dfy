/**
 * `src/tools/sde.rs`: run Intel SDE's instruction-mix tool on a program and turn
 * the report it writes into the back ends' entries. Spawning the emulator,
 * waiting for it, opening the report and deleting it are I/O: the emulator
 * lookup's inputs and the report's lines are parameters, and the deletion is a
 * returned flag.
 */
module SdeTool {
  import opened Common
  import opened Utilities
  import opened ToolShapes
  import SdeParser

  /** The report file used when `--keep` names none. */
  const TEMP_FILE: string := "sde-out.txt"

  /** The number of hottest blocks the emulator is asked to list. */
  const TOP_BLOCKS: nat := 50

  /** `options.keep.as_deref().unwrap_or(TEMP_FILE)`. */
  function ReportPath(keep: Option<string>): (r: string)
    ensures keep.Some? ==> r == keep.value
    ensures keep.None? ==> r == TEMP_FILE
  {
    match keep
    case Some(path) => path
    case None => TEMP_FILE
  }

  /**
   * The emulator to run: the path next to the executable when there is one and
   * `onDisk` (the answer of `std::fs::exists`) says it is there, otherwise `sde`
   * under `$SDE_PATH` when that is set, otherwise `sde` on the search path.
   */
  function EmulatorPath(adjacent: Option<string>, onDisk: string -> bool, sdePath: Option<string>): (r: string)
    ensures adjacent.Some? && onDisk(adjacent.value) ==> r == adjacent.value
    ensures !(adjacent.Some? && onDisk(adjacent.value)) && sdePath.Some? ==> r == sdePath.value + "/sde"
    ensures !(adjacent.Some? && onDisk(adjacent.value)) && sdePath.None? ==> r == "sde"
  {
    if adjacent.Some? && onDisk(adjacent.value) then adjacent.value
    else if sdePath.Some? then sdePath.value + "/sde"
    else "sde"
  }

  /** The emulator's command line: its options, the `--` that ends them, the program and its arguments. */
  function EmulatorArgs(reportPath: string, program: string, arguments: seq<string>): (r: seq<string>)
    ensures |r| == 7 + |arguments|
    ensures r[0] == "-omix" && r[1] == reportPath && r[4] == "50" && r[5] == "--"
    ensures r[6] == program && r[7..] == arguments
  {
    assert Dec(TOP_BLOCKS) == Dec(5) + [Digit(0)];
    ["-omix", reportPath, "-mix_filter_no_shared_libs", "-top_blocks", Dec(TOP_BLOCKS), "--", program] + arguments
  }

  /** The position of the first `--` in a command line, if any. */
  function FirstDashes(args: seq<string>): (r: Option<nat>)
    ensures r.Some? ==> r.value < |args| && args[r.value] == "--"
    ensures r.Some? ==> forall i :: 0 <= i < r.value ==> args[i] != "--"
    ensures r.None? ==> forall i :: 0 <= i < |args| ==> args[i] != "--"
  {
    if |args| == 0 then None
    else if args[0] == "--" then Some(0)
    else
      match FirstDashes(args[1..])
      case None => None
      case Some(i) => Some(i + 1)
  }

  /**
   * The emulator reads the report path after `-omix` and, after the first `--`,
   * exactly the program and its arguments, provided the report path is not
   * itself `--`.
   */
  lemma EmulatorSeesProgram(reportPath: string, program: string, arguments: seq<string>)
    requires reportPath != "--"
    ensures FirstDashes(EmulatorArgs(reportPath, program, arguments)) == Some(5)
    ensures EmulatorArgs(reportPath, program, arguments)[6..] == [program] + arguments
  {
    var r := EmulatorArgs(reportPath, program, arguments);
    assert r[0] != "--" && r[2] != "--" && r[3] != "--" && r[4] != "--";
    assert r[6..] == [r[6]] + r[7..];
  }

  /** The entry for one parsed row: its name, its total and the five counters as labelled pairs. */
  function ToEntry(name: string, c: SdeParser.Count): (r: ToolEntry)
    ensures r.symbolName == name && r.total == c.total
    ensures |r.entries| == 5
    ensures r.entries[0] == ("mem_read", c.memRead) && r.entries[1] == ("mem_write", c.memWrite)
    ensures r.entries[2] == ("stack_read", c.stackRead) && r.entries[3] == ("stack_write", c.stackWrite)
    ensures r.entries[4] == ("call", c.call)
  {
    ToolEntry(name, c.total, [("mem_read", c.memRead), ("mem_write", c.memWrite),
                              ("stack_read", c.stackRead), ("stack_write", c.stackWrite), ("call", c.call)])
  }

  /** The `map` over the parsed rows: one entry per row, in the parser's order. */
  function ToEntries(rows: seq<(string, SdeParser.Count)>): (r: seq<ToolEntry>)
    ensures |r| == |rows|
    ensures forall i :: 0 <= i < |rows| ==> r[i] == ToEntry(rows[i].0, rows[i].1)
  {
    seq(|rows|, i requires 0 <= i < |rows| => ToEntry(rows[i].0, rows[i].1))
  }

  /** The sum of the parser's totals, added from the right. */
  function ParsedTotal(rows: seq<(string, SdeParser.Count)>): nat {
    if |rows| == 0 then 0 else rows[0].1.total + ParsedTotal(rows[1..])
  }

  /** Moving the last row out of a sum from the right. */
  lemma {:induction false} ParsedTotalSnoc(rows: seq<(string, SdeParser.Count)>)
    requires |rows| > 0
    ensures ParsedTotal(rows) == ParsedTotal(rows[..|rows| - 1]) + rows[|rows| - 1].1.total
    decreases |rows|
  {
    if |rows| > 1 {
      ParsedTotalSnoc(rows[1..]);
      assert rows[1..][..|rows| - 2] == rows[..|rows| - 1][1..];
    }
  }

  /** The grand total folded over the entries is the sum of the totals the parser reported. */
  lemma {:induction false} FoldedTotal(rows: seq<(string, SdeParser.Count)>)
    ensures SumTotals(ToEntries(rows)) == ParsedTotal(rows)
    decreases |rows|
  {
    if |rows| > 0 {
      var front := rows[..|rows| - 1];
      FoldedTotal(front);
      assert ToEntries(rows)[..|rows| - 1] == ToEntries(front);
      ParsedTotalSnoc(rows);
    }
  }

  /** What one run produces: the command started, the entries, their total, and whether the report is deleted. */
  datatype SdeRun = SdeRun(
    emulator: string,
    args: seq<string>,
    reportPath: string,
    symbols: seq<ToolEntry>,
    total: nat,
    removeReport: bool)

  /**
   * `run_sde` on the lines the emulator left in its report. A failure is one of
   * the parser's panics; otherwise the emulator wrote to the report path that was
   * read, the entries follow the parser's rows one for one, the total is the
   * left-to-right fold of their totals and so the sum of the parser's totals, and the report is removed exactly when it
   * was not to be kept.
   */
  function RunSde(program: string, arguments: seq<string>, keep: Option<string>, skipInternals: bool,
                  adjacent: Option<string>, onDisk: string -> bool, sdePath: Option<string>,
                  report: seq<string>): (r: Result<SdeRun, string>)
    ensures r.Success? <==> SdeParser.ParseSpec(report, skipInternals).Success?
    ensures r.Success? ==>
      var rows := SdeParser.ParseSpec(report, skipInternals).value;
      && r.value.emulator == EmulatorPath(adjacent, onDisk, sdePath)
      && r.value.reportPath == ReportPath(keep)
      && r.value.args == EmulatorArgs(r.value.reportPath, program, arguments)
      && r.value.symbols == ToEntries(rows)
      && |r.value.symbols| == |rows|
      && (forall i :: 0 <= i < |rows| ==>
            r.value.symbols[i].symbolName == rows[i].0 && r.value.symbols[i].total == rows[i].1.total)
      && r.value.total == SumTotals(r.value.symbols) == ParsedTotal(rows)
      && (r.value.removeReport <==> keep.None?)
  {
    var path := ReportPath(keep);
    match SdeParser.ParseSpec(report, skipInternals)
    case Failure(e) => Failure(e)
    case Success(rows) =>
      var symbols := ToEntries(rows);
      FoldedTotal(rows);
      Success(SdeRun(EmulatorPath(adjacent, onDisk, sdePath), EmulatorArgs(path, program, arguments),
                     path, symbols, SumTotals(symbols), keep.None?))
  }
}
