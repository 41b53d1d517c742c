/**
 * `src/main.rs`: `BenchmarkInput::from_arguments`, the hand-written command-line
 * parser, and the `--limit requires --sort` check that `main` performs on its result.
 *
 * The parser reads one argument at a time. `--sort` looks one argument ahead for a
 * direction; when that argument is not one, it is kept in `left_over` and read again
 * as the next argument. The first `--` or the first argument that is not a flag ends
 * the parse: what follows is the program and its arguments. The `expect`/`unwrap`
 * panics on a missing value become `Failure` with Rust's message.
 */
module Cli {
  import opened Common
  import opened Text
  import opened Utilities

  /** `OutputFormat`; `Plain` is the default. */
  datatype OutputFormat = Plain | Json | Csv | Markdown

  /** `BenchmarkInput`. The program and its arguments are `OsString`s, modelled as strings. */
  datatype BenchmarkInput = BenchmarkInput(
    limit: nat,
    sort: Option<Sorting>,
    format: OutputFormat,
    program: string,
    arguments: seq<string>,
    genericArguments: map<string, seq<string>>,
    keep: Option<string>,
    mergeInternals: bool,
    breakdown: bool,
    writeResultsTo: Option<string>,
    writeToStdout: bool)

  /** The state `from_arguments` starts from: no limit, sorted by `total` ascending, plain text, to stdout. */
  const DEFAULTS := BenchmarkInput(
    USIZE_MAX, Some(Sorting("total", Ascending)), Plain, "", [], map[], None, false, false, None, true)

  const UNWRAP_NONE := "called `Option::unwrap()` on a `None` value"
  const NO_FORMAT := "no format given"
  const NO_FIELD := "expected field"
  const INVALID_LIMIT := "invalid limit"
  const LIMIT_NEEDS_SORT := "--limit requires --sort"

  /** The arms of the `match arg.as_str()`; `Program` is the catch-all arm. */
  datatype Flag =
    | FormatFlag | SortFlag | LimitFlag | KeepFlag | WriteResultsToFlag
    | MergeInternalsFlag | BreakdownFlag | QuietFlag | ArgFlag | EndOfFlags | Program

  /** The spellings of the flags `from_arguments` recognises. */
  const FLAG_SPELLINGS: set<string> := {
    "--format", "--sort", "--limit", "--keep", "--write-results-to",
    "--merge-internals", "--breakdown", "--quiet", "--arg", "--"}

  function FlagOf(arg: string): (f: Flag)
    ensures f == FormatFlag <==> arg == "--format"
    ensures f == SortFlag <==> arg == "--sort"
    ensures f == LimitFlag <==> arg == "--limit"
    ensures f == KeepFlag <==> arg == "--keep"
    ensures f == WriteResultsToFlag <==> arg == "--write-results-to"
    ensures f == MergeInternalsFlag <==> arg == "--merge-internals"
    ensures f == BreakdownFlag <==> arg == "--breakdown"
    ensures f == QuietFlag <==> arg == "--quiet"
    ensures f == ArgFlag <==> arg == "--arg"
    ensures f == EndOfFlags <==> arg == "--"
  {
    if arg == "--format" then FormatFlag
    else if arg == "--sort" then SortFlag
    else if arg == "--limit" then LimitFlag
    else if arg == "--keep" then KeepFlag
    else if arg == "--write-results-to" then WriteResultsToFlag
    else if arg == "--merge-internals" then MergeInternalsFlag
    else if arg == "--breakdown" then BreakdownFlag
    else if arg == "--quiet" then QuietFlag
    else if arg == "--arg" then ArgFlag
    else if arg == "--" then EndOfFlags
    else Program
  }

  /** The catch-all arm: an argument is read as the program exactly when it is none of the flags. */
  lemma FlagOfProgram(arg: string)
    ensures FlagOf(arg) == Program <==> arg !in FLAG_SPELLINGS
  {
  }

  /** The value of `--format`: an unknown name (a warning on stderr) falls back to plain text. */
  function FormatOf(name: string): (f: OutputFormat)
    ensures f == Json <==> name == "json"
    ensures f == Markdown <==> name == "markdown"
    ensures f != Csv
  {
    if name == "plain" then Plain
    else if name == "json" then Json
    else if name == "markdown" then Markdown
    else Plain
  }

  /** The optional direction after `--sort <field>`. */
  function DirectionOf(next: Option<string>): (d: Option<Direction>)
    ensures d == Some(Ascending) <==> next == Some("asc") || next == Some("ascending")
    ensures d == Some(Descending) <==> next == Some("desc") || next == Some("descending")
  {
    match next
    case None => None
    case Some(s) =>
      if s == "asc" || s == "ascending" then Some(Ascending)
      else if s == "desc" || s == "descending" then Some(Descending)
      else None
  }

  /** The value of `--limit`: `all` means no limit, anything else must parse as a `usize`. */
  function LimitOf(value: string): (r: Option<nat>)
    ensures value == "all" ==> r == Some(USIZE_MAX)
    ensures value != "all" ==> r == ParseUnsigned(value, USIZE_MAX)
  {
    if value == "all" then Some(USIZE_MAX) else ParseUnsigned(value, USIZE_MAX)
  }

  /** The value of `--arg name=v1,v2`: the name before the first `=`, the trimmed rest split at commas. */
  function GenericArgumentOf(value: string): (r: Option<(string, seq<string>)>)
    ensures r.None? <==> '=' !in value
    ensures r.Some? ==> '=' !in r.value.0 && |r.value.1| >= 1
    ensures r.Some? ==> |r.value.0| < |value|
    ensures r.Some? ==>
      var rest := value[|r.value.0| + 1..];
      && value == r.value.0 + "=" + rest
      && r.value.1 == Split(Trim(rest), ',')
      && Join(r.value.1, ",") == Trim(rest)
  {
    match SplitOnce(value, '=')
    case None => None
    case Some((name, values)) => Some((name, Split(Trim(values), ',')))
  }

  /** What `--sort <field>` does with the argument after the field, `next`. */
  function SortingOf(field: string, next: Option<string>): Sorting {
    match DirectionOf(next)
    case Some(d) => Sorting(field, d)
    case None => Sorting(field, Ascending)
  }

  /** What one pass of the loop does: read on after `consumed` more arguments, stop at the program, or panic. */
  datatype Reading =
    | Next(input: BenchmarkInput, consumed: nat)
    | Stop(input: BenchmarkInput)
    | Panic(message: string)

  /**
   * One pass of the loop for the argument `arg`, with `rest` the arguments after
   * it. `--sort` consumes its field and, only when it is a direction, the argument
   * after it; otherwise that argument is read again on the next pass.
   */
  function ReadArgument(input: BenchmarkInput, flag: Flag, arg: string, rest: seq<string>): (r: Reading)
    ensures r.Next? ==> r.consumed <= |rest|
  {
    match flag
    case FormatFlag =>
      if |rest| == 0 then Panic(NO_FORMAT) else Next(input.(format := FormatOf(rest[0])), 1)
    case SortFlag =>
      if |rest| == 0 then Panic(NO_FIELD)
      else if |rest| >= 2 && DirectionOf(Some(rest[1])).Some? then
        Next(input.(sort := Some(SortingOf(rest[0], Some(rest[1])))), 2)
      else Next(input.(sort := Some(Sorting(rest[0], Ascending))), 1)
    case LimitFlag =>
      if |rest| == 0 then Panic(UNWRAP_NONE)
      else if LimitOf(rest[0]).None? then Panic(INVALID_LIMIT)
      else Next(input.(limit := LimitOf(rest[0]).value), 1)
    case KeepFlag =>
      if |rest| == 0 then Next(input.(keep := None), 0) else Next(input.(keep := Some(rest[0])), 1)
    case WriteResultsToFlag =>
      if |rest| == 0 then Next(input.(writeResultsTo := None), 0)
      else Next(input.(writeResultsTo := Some(rest[0])), 1)
    case MergeInternalsFlag => Next(input.(mergeInternals := true), 0)
    case BreakdownFlag => Next(input.(breakdown := true), 0)
    case QuietFlag => Next(input.(writeToStdout := false), 0)
    case ArgFlag =>
      if |rest| == 0 || GenericArgumentOf(rest[0]).None? then Panic(UNWRAP_NONE)
      else
        var (name, values) := GenericArgumentOf(rest[0]).value;
        Next(input.(genericArguments := input.genericArguments[name := values]), 1)
    case EndOfFlags =>
      if |rest| == 0 then Panic(UNWRAP_NONE) else Stop(input.(program := rest[0], arguments := rest[1..]))
    case Program => Stop(input.(program := arg, arguments := rest))
  }

  /**
   * The parse of the arguments `args` still to be read, from the state `input`;
   * an argument held in `left_over` is the first of `args`. When they run out,
   * no program has been named and there are no program arguments.
   */
  function ParseFrom(input: BenchmarkInput, args: seq<string>): Result<BenchmarkInput, string>
    decreases |args|
  {
    if |args| == 0 then Success(input.(arguments := []))
    else
      match ReadArgument(input, FlagOf(args[0]), args[0], args[1..])
      case Next(input', k) => ParseFrom(input', args[k + 1..])
      case Stop(input') => Success(input')
      case Panic(message) => Failure(message)
  }

  /** `BenchmarkInput::from_arguments` as a function of the whole argument list. */
  function ParseArguments(args: seq<string>): Result<BenchmarkInput, string> {
    ParseFrom(DEFAULTS, args)
  }

  /** The arguments still to be read: the one held back, then the rest of the iterator. */
  function Pending(leftOver: Option<string>, args: seq<string>): seq<string> {
    match leftOver
    case None => args
    case Some(a) => [a] + args
  }

  /**
   * `BenchmarkInput::from_arguments`: the `while let` loop over `left_over` and the
   * argument iterator (an index into `args`), then the remaining arguments.
   */
  method FromArguments(args: seq<string>) returns (r: Result<BenchmarkInput, string>)
    ensures r == ParseArguments(args)
  {
    var input := DEFAULTS;
    var leftOver: Option<string> := None;
    var next := 0;
    ghost var goal := ParseArguments(args);
    while leftOver.Some? || next < |args|
      invariant next <= |args|
      invariant ParseFrom(input, Pending(leftOver, args[next..])) == goal
      decreases |args| - next, leftOver.Some?
    {
      var arg;
      ghost var pending := Pending(leftOver, args[next..]);
      if leftOver.Some? {
        arg := leftOver.value;
        leftOver := None;
      } else {
        arg := args[next];
        next := next + 1;
        assert pending == [arg] + args[next..];
      }
      assert pending[0] == arg && pending[1..] == args[next..];
      ghost var reading := ReadArgument(input, FlagOf(arg), arg, args[next..]);
      ParseFromStep(input, pending, reading);
      ghost var before := next;
      var stop;
      input, leftOver, next, r, stop := Step(input, arg, args, next);
      if stop {
        return;
      }
      assert pending[reading.consumed + 1..] == args[before..][reading.consumed..];
    }
    r := Success(input.(arguments := args[next..]));
  }

  /**
   * The loop body after `arg` has been taken: reads the values `arg` needs from
   * `args[next..]` and returns the new state, what `left_over` now holds, the new
   * position and, when the loop ends here (`stop`), its outcome.
   */
  method Step(input: BenchmarkInput, arg: string, args: seq<string>, next: nat)
    returns (input': BenchmarkInput, leftOver: Option<string>, next': nat, r: Result<BenchmarkInput, string>, stop: bool)
    requires next <= |args|
    ensures next <= next' <= |args|
    ensures leftOver.Some? ==> next' > next
    ensures
      var reading := ReadArgument(input, FlagOf(arg), arg, args[next..]);
      match reading
      case Panic(message) => stop && r == Failure(message)
      case Stop(result) => stop && r == Success(result)
      case Next(result, k) => !stop && input' == result && Pending(leftOver, args[next'..]) == args[next..][k..]
  {
    stop := false;
    leftOver := None;
    next' := next;
    input' := input;
    r := Success(input);
    var flag := FlagOf(arg);
    match flag
    case Program =>
      return input, None, next, Success(input.(program := arg, arguments := args[next..])), true;
    case EndOfFlags =>
      if next == |args| {
        return input, None, next, Failure(UNWRAP_NONE), true;
      }
      return input, None, next + 1, Success(input.(program := args[next], arguments := args[next + 1..])), true;
    case FormatFlag =>
      if next == |args| {
        r, stop := Failure(NO_FORMAT), true;
        return;
      }
      input' := input.(format := FormatOf(args[next]));
      next' := next + 1;
    case SortFlag =>
      if next == |args| {
        r, stop := Failure(NO_FIELD), true;
        return;
      }
      var field := args[next];
      next' := next + 1;
      var following: Option<string> := None;
      if next' < |args| {
        following := Some(args[next']);
        next' := next' + 1;
      }
      var direction := DirectionOf(following);
      if direction.None? {
        leftOver := following;
      }
      input' := input.(sort := Some(SortingOf(field, following)));
      assert following.Some? ==> args[next..][1..] == [following.value] + args[next'..];
    case LimitFlag =>
      if next == |args| {
        r, stop := Failure(UNWRAP_NONE), true;
        return;
      }
      var limit := LimitOf(args[next]);
      if limit.None? {
        r, stop := Failure(INVALID_LIMIT), true;
        return;
      }
      input' := input.(limit := limit.value);
      next' := next + 1;
    case KeepFlag =>
      if next == |args| {
        input' := input.(keep := None);
      } else {
        input' := input.(keep := Some(args[next]));
        next' := next + 1;
      }
    case WriteResultsToFlag =>
      if next == |args| {
        input' := input.(writeResultsTo := None);
      } else {
        input' := input.(writeResultsTo := Some(args[next]));
        next' := next + 1;
      }
    case MergeInternalsFlag =>
      input' := input.(mergeInternals := true);
    case BreakdownFlag =>
      input' := input.(breakdown := true);
    case QuietFlag =>
      input' := input.(writeToStdout := false);
    case ArgFlag =>
      if next == |args| {
        r, stop := Failure(UNWRAP_NONE), true;
        return;
      }
      var generic := GenericArgumentOf(args[next]);
      if generic.None? {
        r, stop := Failure(UNWRAP_NONE), true;
        return;
      }
      var (name, values) := generic.value;
      input' := input.(genericArguments := input.genericArguments[name := values]);
      next' := next + 1;
  }

  /** `main`'s check on the parsed input: a limit without a sort order is refused. */
  function CheckLimit(input: BenchmarkInput): (r: Result<BenchmarkInput, string>)
    ensures r.Failure? <==> input.limit != USIZE_MAX && input.sort.None?
    ensures r.Success? ==> r.value == input
  {
    if input.limit != USIZE_MAX && input.sort.None? then Failure(LIMIT_NEEDS_SORT) else Success(input)
  }

  /**
   * What reading a flag never undoes: a sort order stays set, the format never
   * becomes CSV, the switches stay switched and `--arg` names stay defined.
   */
  ghost predicate Keeps(before: BenchmarkInput, after: BenchmarkInput) {
    && (before.sort.Some? ==> after.sort.Some?)
    && (before.format != Csv ==> after.format != Csv)
    && (before.mergeInternals ==> after.mergeInternals)
    && (before.breakdown ==> after.breakdown)
    && (!before.writeToStdout ==> !after.writeToStdout)
    && before.genericArguments.Keys <= after.genericArguments.Keys
  }

  /**
   * The program and its arguments come from the argument list: the arguments are
   * a suffix of it and the program is the argument just before them, unless the
   * list ran out before any program was named.
   */
  ghost predicate ProgramFrom(input: BenchmarkInput, args: seq<string>, result: BenchmarkInput) {
    && |result.arguments| <= |args|
    && result.arguments == args[|args| - |result.arguments|..]
    && ((result.arguments == [] && result.program == input.program)
        || (|result.arguments| < |args| && result.program == args[|args| - |result.arguments| - 1]))
  }

  /** One pass keeps what `Keeps` names, and a pass that stops takes the program from the list. */
  lemma ReadArgumentShape(input: BenchmarkInput, flag: Flag, arg: string, rest: seq<string>)
    ensures ReadArgument(input, flag, arg, rest).Next? ==> Keeps(input, ReadArgument(input, flag, arg, rest).input)
    ensures ReadArgument(input, flag, arg, rest).Next? ==> ReadArgument(input, flag, arg, rest).input.program == input.program
    ensures ReadArgument(input, flag, arg, rest).Stop? ==> Keeps(input, ReadArgument(input, flag, arg, rest).input)
    ensures ReadArgument(input, flag, arg, rest).Stop? ==> ProgramFrom(input, [arg] + rest, ReadArgument(input, flag, arg, rest).input)
  {
    ReadArgumentNext(input, flag, arg, rest);
    ReadArgumentStop(input, flag, arg, rest);
  }

  lemma ReadArgumentNext(input: BenchmarkInput, flag: Flag, arg: string, rest: seq<string>)
    ensures ReadArgument(input, flag, arg, rest).Next? ==> Keeps(input, ReadArgument(input, flag, arg, rest).input)
    ensures ReadArgument(input, flag, arg, rest).Next? ==> ReadArgument(input, flag, arg, rest).input.program == input.program
  {
    match flag
    case FormatFlag =>
    case SortFlag =>
    case LimitFlag =>
    case KeepFlag =>
    case WriteResultsToFlag =>
    case MergeInternalsFlag =>
    case BreakdownFlag =>
    case QuietFlag =>
    case ArgFlag =>
    case EndOfFlags =>
    case Program =>
  }

  lemma ReadArgumentStop(input: BenchmarkInput, flag: Flag, arg: string, rest: seq<string>)
    ensures ReadArgument(input, flag, arg, rest).Stop? ==> Keeps(input, ReadArgument(input, flag, arg, rest).input)
    ensures ReadArgument(input, flag, arg, rest).Stop? ==> ProgramFrom(input, [arg] + rest, ReadArgument(input, flag, arg, rest).input)
  {
    match flag
    case FormatFlag =>
    case SortFlag =>
    case LimitFlag =>
    case KeepFlag =>
    case WriteResultsToFlag =>
    case MergeInternalsFlag =>
    case BreakdownFlag =>
    case QuietFlag =>
    case ArgFlag =>
    case EndOfFlags =>
    case Program =>
  }

  /** Unfolding the parse by one pass of the loop. */
  lemma ParseFromStep(input: BenchmarkInput, args: seq<string>, reading: Reading)
    requires |args| > 0 && reading == ReadArgument(input, FlagOf(args[0]), args[0], args[1..])
    ensures reading.Next? ==> ParseFrom(input, args) == ParseFrom(reading.input, args[reading.consumed + 1..])
    ensures reading.Stop? ==> ParseFrom(input, args) == Success(reading.input)
    ensures reading.Panic? ==> ParseFrom(input, args) == Failure(reading.message)
  {
  }

  /** `Keeps` and `ProgramFrom` carry over from the rest of the list to the whole list. */
  lemma ShapeTransfer(input: BenchmarkInput, input': BenchmarkInput, args: seq<string>, k: nat, result: BenchmarkInput)
    requires k < |args| && Keeps(input, input') && Keeps(input', result)
    requires ProgramFrom(input', args[k + 1..], result) && input'.program == input.program
    ensures Keeps(input, result) && ProgramFrom(input, args, result)
  {
  }

  /** The whole parse keeps what `Keeps` names, and the program and its arguments come from the list. */
  lemma {:induction false} ParseFromShape(input: BenchmarkInput, args: seq<string>)
    ensures ParseFrom(input, args).Success? ==> Keeps(input, ParseFrom(input, args).value)
    ensures ParseFrom(input, args).Success? ==> ProgramFrom(input, args, ParseFrom(input, args).value)
    decreases |args|
  {
    if |args| > 0 {
      var reading := ReadArgument(input, FlagOf(args[0]), args[0], args[1..]);
      ReadArgumentShape(input, FlagOf(args[0]), args[0], args[1..]);
      ParseFromStep(input, args, reading);
      assert [args[0]] + args[1..] == args;
      if reading.Next? {
        var k := reading.consumed;
        ParseFromShape(reading.input, args[k + 1..]);
        var result := ParseFrom(reading.input, args[k + 1..]);
        if result.Success? {
          ShapeTransfer(input, reading.input, args, k, result.value);
        }
      }
    }
  }

  /**
   * A parse that succeeds always has a sort order, so `main`'s limit check never
   * refuses it; the format is never CSV; the program and its arguments come from
   * the argument list.
   */
  lemma ParsedInputShape(args: seq<string>)
    requires ParseArguments(args).Success?
    ensures ParseArguments(args).value.sort.Some?
    ensures CheckLimit(ParseArguments(args).value) == Success(ParseArguments(args).value)
    ensures ParseArguments(args).value.format != Csv
    ensures ProgramFrom(DEFAULTS, args, ParseArguments(args).value)
  {
    ParseFromShape(DEFAULTS, args);
  }

  /**
   * `--sort <field> <x>` with `x` not a direction sorts ascending by `field` and
   * reads `x` again as the next argument; with a direction it consumes both.
   */
  lemma SortLookAhead(input: BenchmarkInput, flag: string, field: string, x: string, rest: seq<string>)
    requires FlagOf(flag) == SortFlag
    ensures DirectionOf(Some(x)).None? ==>
      ParseFrom(input, [flag, field, x] + rest) == ParseFrom(input.(sort := Some(Sorting(field, Ascending))), [x] + rest)
    ensures DirectionOf(Some(x)).Some? ==>
      ParseFrom(input, [flag, field, x] + rest) == ParseFrom(input.(sort := Some(Sorting(field, DirectionOf(Some(x)).value))), rest)
  {
    var args := [flag, field, x] + rest;
    assert args[0] == flag && args[1..] == [field, x] + rest;
    assert args[2..] == [x] + rest && args[3..] == rest;
  }

  /** A flag that needs a value panics when it is the last argument; `--keep` and `--write-results-to` do not. */
  lemma MissingValue(input: BenchmarkInput, flag: string)
    ensures FlagOf(flag) == FormatFlag ==> ParseFrom(input, [flag]) == Failure(NO_FORMAT)
    ensures FlagOf(flag) == SortFlag ==> ParseFrom(input, [flag]) == Failure(NO_FIELD)
    ensures FlagOf(flag) in {LimitFlag, ArgFlag, EndOfFlags} ==> ParseFrom(input, [flag]) == Failure(UNWRAP_NONE)
    ensures FlagOf(flag) == KeepFlag ==> ParseFrom(input, [flag]) == Success(input.(keep := None, arguments := []))
  {
    assert [flag][1..] == [];
  }

  /** Everything after `--` and the program is passed to the program unread, flags included. */
  lemma EndOfFlagsPassesRest(input: BenchmarkInput, flag: string, program: string, rest: seq<string>)
    requires FlagOf(flag) == EndOfFlags
    ensures ParseFrom(input, [flag, program] + rest) == Success(input.(program := program, arguments := rest))
  {
    var args := [flag, program] + rest;
    assert args[0] == flag && args[1..] == [program] + rest && args[2..] == rest;
  }
}
