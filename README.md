# depict, modelled in Dafny

depict is a command-line profiler. It runs a program under an instruction
tracer, either the QBDI dynamic binary instrumentation framework (through a
preloaded C tracer library) or Intel's Software Development Emulator (SDE). It
collects per-symbol instruction counts and prints them as a plain-text table,
JSON, CSV or Markdown, sorted and cut to a limit.

This project models the core of that pipeline and proves properties of it:

- `common.dfy`: `Option` and `Result`.
- `text.dfy`: the Rust `str` operations the core relies on (`strip_prefix`,
  `split_once`, `replace`, `trim_start`, `split`, `u32`/`usize` parsing).
- `utilities.dfy`: `Direction::compare`, and `to_denary` /
  `count_with_seperator` as a loop method proved against a digit-grouping
  function.
- `counters.dfy`: the `Statistics` record: a class with in-place `add_other`
  and `add_assign`, a value snapshot, `as_rows`.
- `tool_shapes.dfy`: the per-symbol entry shape both tool back ends build.
- `sde_parser.dfy`: the SDE instruction-mix report parser (`sde-output-parser`).
- `qbdi_stream.dfy`: the QBDI back-end loop that reads the traced program's
  standard output.
- `tracer.dfy`: the C tracer `icount.c`: an FNV-1a hash over a 4096-bucket
  table of chained counters, instruction classification, the exit dump.
- `cli.dfy`: `BenchmarkInput::from_arguments`, `OutputFormat` and `main`'s
  `--limit` check.
- `report.dfy`: `print_results`: the sort (an in-place insertion sort on an
  array), the window of shown rows, and the four output formats.
- `sde_tool.dfy`: `run_sde`, the SDE back end.

Where the code and its documentation disagree, the model follows the code:

- The default sort is `Some(total, Ascending)` and no flag clears it, so the
  `--limit requires --sort` panic can never fire (`Cli.ParsedInputShape`).
- `Ascending` reverses the natural order, so it lists the largest totals first
  (`Report.AscendingPutsLargestFirst`).
- `--format csv` is not recognised and falls back to plain.
- The JSON breakdown field for the free-form counters is `kinds`.

## Model

| member | source | states |
|---|---|---|
| Text.StripPrefix | src/tools/qbdi.rs:106 | present iff the line starts with the prefix, and then the line is prefix plus rest |
| Text.SplitOnce | src/tools/qbdi.rs:107-112 | absent iff the separator does not occur; otherwise the parts rebuild the input around its first occurrence |
| Text.TrimStart | sde-output-parser/lib.rs:59 | the result is a suffix of the input, with only whitespace removed and no leading whitespace left |
| Text.ParseUnsigned | src/tools/qbdi.rs:113 | succeeds exactly on an optional `+` and decimal digits whose value fits the bound, and the result is the decimal value of those digits |
| Text.Replace | sde-output-parser/lib.rs:54 | a string with no occurrence of the pattern is unchanged |
| Text.ReplaceAtStart | sde-output-parser/lib.rs:54 | a leading occurrence becomes the replacement and scanning resumes after it |
| Text.Split | src/main.rs:299 | at least one piece, no piece holds the separator, and joining the pieces with it gives back the input |
| Utilities.Ordering.Reverse | src/utilities.rs:17 | swaps Less and Greater and keeps Equal |
| Utilities.CmpNat | src/utilities.rs:15 | the `Ord` comparison of counts: Less, Equal or Greater exactly as `<`, `==`, `>` |
| Utilities.Apply | src/utilities.rs:14-21 | Descending keeps the natural order and Ascending reverses it |
| Utilities.CmpStrEqual | src/utilities.rs:15 | two names compare Equal exactly when they are the same string |
| Utilities.CmpStrFlip | src/utilities.rs:15 | swapping the operands reverses the comparison |
| Utilities.CmpStrTransitive | src/utilities.rs:15 | the name order is transitive |
| Utilities.DirectionsMirror | src/utilities.rs:14-21 | ascending on (a, b) is descending on (b, a), for names and for counts |
| Utilities.ILog10Bounds | src/utilities.rs:37 | `ilog10` of a positive value v is the k with 10^k <= v < 10^(k+1) |
| Utilities.Pow10FitsI32 | src/utilities.rs:38 | `10i32.pow(i)` fits an `i32` exactly when i < 10 |
| Utilities.DecIsNumeral | src/main.rs:506 | the decimal rendering has ilog10 + 1 digits, reads back as the value, and has a leading zero only for 0 |
| Utilities.ParseDec | src/tools/qbdi.rs:113 | the decimal rendering of any value within the bound parses back to that value, with or without a leading `+` |
| Utilities.GroupedUngrouped | src/utilities.rs:32-45 | with an empty separator the grouped rendering is the plain decimal numeral |
| Utilities.GroupedLength | src/utilities.rs:37-43 | the length is the digit count plus one separator per full group of three below the top digit |
| Utilities.WrittenIsGrouped | src/utilities.rs:37-43 | the digit-by-digit loop output, top digit first with a separator before each group of three, equals the grouped rendering |
| Utilities.ToDenary | src/utilities.rs:32-45 | fails (the `pow` overflow panic) exactly when the value has more than 10 digits; otherwise returns the grouped rendering |
| Utilities.CountWithSeparator | src/utilities.rs:26-30 | the grouped rendering with a non-breaking space, with the same failure condition |
| Utilities.GroupedExample | src/utilities.rs:26-45 | 1234567 renders as `1 234 567` with non-breaking spaces, 0 as `0`, 1000 with `,` as `1,000` |
| Utilities.U32CountsRender | src/main.rs:416 | any `u32` count renders without the overflow panic |
| Utilities.ToDenaryOverflowExample | src/utilities.rs:37-38 | a `usize` of 11 digits reaches `10i32.pow(10)`, which does not fit an `i32` |
| Counters.WithOther | src/lib.rs:119-126 | `add_other` adds the value to the key's counter, creating it at the value when absent, and changes nothing else |
| Counters.MergeOthers | src/lib.rs:53-84 | the merged free-form counters have the union of keys, each the sum of both sides |
| Counters.UnionSumCommutative | src/lib.rs:80-82 | folding one counter map into another does not depend on which is folded into which |
| Counters.UnionSumAssociative | src/lib.rs:80-82 | folding counter maps is associative |
| Counters.MergeCommutative | src/lib.rs:53-84 | `+=` on statistics is commutative |
| Counters.MergeAssociative | src/lib.rs:53-84 | `+=` on statistics is associative |
| Counters.MergeZero | src/lib.rs:37-51 | the default statistics are the identity of `+=` |
| Counters.WithOtherIsMerge | src/lib.rs:119-126 | `add_other(k, v)` is `+=` of the statistics holding only `others = {k: v}` |
| Counters.SumValuesUnionSum | src/lib.rs:115 | the `other` row of a fold of counter maps is the sum of the two `other` rows |
| Counters.AsRowsShape | src/lib.rs:88-117 | twelve rows with the fixed labels, `total` first and `other` the sum of the free-form counters last |
| Counters.AsRowsMerge | src/lib.rs:88-117 | every row of the merged statistics is the sum of the two rows |
| Counters.AsRowsWithOther | src/lib.rs:115 | `add_other` raises only the `other` row, by the value |
| Counters.Statistics.constructor | src/lib.rs:37 | the default statistics are all zero with no free-form counters |
| Counters.Statistics.AddOther | src/lib.rs:119-126 | the object's new value is `WithOther` of its old value; only `others` changes |
| Counters.Statistics.AddAssign | src/lib.rs:53-84 | the object's new value is the merge of its old value and the right-hand side |
| Counters.Statistics.AddFixed | src/lib.rs:69-79 | each of the eleven fixed counters grows by the right-hand side's |
| Counters.Statistics.AddOthers | src/lib.rs:80-82 | the `add_other` loop leaves the union-sum of the old map and the right-hand side's |
| SdeParser.FieldOf | sde-output-parser/lib.rs:58-70 | the first of the six value prefixes the line starts with, or none |
| SdeParser.Number | sde-output-parser/lib.rs:59 | succeeds exactly when the trimmed rest parses as a `u32`, with that value |
| SdeParser.SetValue | sde-output-parser/lib.rs:57-71 | a value line sets exactly its field or fails on a bad number; any other line leaves the counts alone |
| SdeParser.LaterValueWins | sde-output-parser/lib.rs:57-71 | a second value for the same field overwrites the first |
| SdeParser.HeaderName | sde-output-parser/lib.rs:32-39 | the global header names `global`; a function header names the text up to the first space, failing without one; other lines are not headers |
| SdeParser.Parse | sde-output-parser/lib.rs:14-79 | the loop returns the parser's specification result on every input |
| SdeParser.StepBeforeStart | sde-output-parser/lib.rs:24-30 | before the start marker any other line is ignored |
| SdeParser.PrefixIgnored | sde-output-parser/lib.rs:22-30 | lines before the first start marker do not affect the result |
| SdeParser.NoMarkerNoEntries | sde-output-parser/lib.rs:22-30 | a report without the start marker yields no entries |
| SdeParser.StartMarkerStep | sde-output-parser/lib.rs:24-26 | the start marker only switches parsing on |
| SdeParser.StepHeader | sde-output-parser/lib.rs:41-55 | a header emits the current section unless it is filtered or unnamed, resets the counts and names the next section unescaped |
| SdeParser.StepValue | sde-output-parser/lib.rs:56-71 | a non-header line succeeds exactly when its value does, and sets the counts to it |
| SdeParser.RunAppendsOnly | sde-output-parser/lib.rs:18-52 | emitted entries are only ever appended |
| SdeParser.RunKeepsKept | sde-output-parser/lib.rs:42-52 | every entry a header emits passes the internals filter |
| SdeParser.ParsedEntriesNamed | sde-output-parser/lib.rs:42-76 | every entry has a name; with the filter on, all but the final flushed one are free of `alloc`, `std` and `core` |
| SdeParser.CountsBeforeFirstHeaderDropped | sde-output-parser/lib.rs:47-55 | counts before the first header belong to no section and are dropped |
| SdeParser.HeaderWithoutSpaceFails | sde-output-parser/lib.rs:35 | a function header without a space after the name is the `unwrap` panic |
| SdeParser.FunctionHeaderName | sde-output-parser/lib.rs:34-36 | a function header names the symbol before its first space |
| SdeParser.FinalFlushUnfiltered | sde-output-parser/lib.rs:74-76 | the section open when input ends is emitted even if the filter would drop it |
| SdeParser.StdIsInternal | sde-output-parser/lib.rs:42-46 | a `std` section is dropped only when the filter is on |
| SdeParser.NotValueLine | sde-output-parser/lib.rs:57-71 | a line not starting with `*` sets no field |
| SdeParser.ReplaceLessOfEscape | sde-output-parser/lib.rs:54 | the first replacement undoes the `$LT$` escape |
| SdeParser.ReplaceGreaterOfEscape | sde-output-parser/lib.rs:54 | the second replacement undoes the `$GT$` escape |
| SdeParser.UnescapeEscape | sde-output-parser/lib.rs:54 | unescaping inverts SDE's `<`/`>` escape for names with no `$` and no `>` directly followed by `L` |
| QbdiStream.Classify | src/tools/qbdi.rs:106-116 | a line without `bm::` is passed through; a record has a symbol and a kind without `/` |
| QbdiStream.ClassifyRecord | src/tools/qbdi.rs:106-116 | a well-formed `bm::func/kind/count` line is that record, with a count that parses as `u32` |
| QbdiStream.PassthroughLine | src/tools/qbdi.rs:134-136 | a line without the prefix is printed and changes no count |
| QbdiStream.AllPassthrough | src/tools/qbdi.rs:100-137 | a stream without records prints every line and counts nothing |
| QbdiStream.RecordWithoutSlashIgnored | src/tools/qbdi.rs:107-110 | a record with no `/` is skipped |
| QbdiStream.MalformedRecords | src/tools/qbdi.rs:112-116 | a record with one `/` is the `unwrap` panic; a count that does not parse is skipped |
| QbdiStream.OneSlashFails | src/tools/qbdi.rs:112 | a record line with one `/` classifies as the `unwrap` panic |
| QbdiStream.BadCountIgnored | src/tools/qbdi.rs:113-116 | a record line whose count does not parse classifies as skipped |
| QbdiStream.FailureSticks | src/tools/qbdi.rs:112 | once a line panics, later lines do not matter |
| QbdiStream.FeedEffect | src/tools/qbdi.rs:118-133 | an accepted record adds its count to the total, and to its symbol with the kind appended, unless the symbol is an internal being skipped |
| QbdiStream.ProcessTotals | src/tools/qbdi.rs:99-136 | the grand total is the sum of every accepted count, skipped internals included, and the output is exactly the non-record lines |
| QbdiStream.ItemsMatchExtend | src/tools/qbdi.rs:130-133 | adding one kept record keeps each item equal to its symbol's records, with its total the sum of its kinds |
| QbdiStream.ProcessItems | src/tools/qbdi.rs:120-133 | each item lists exactly the kept records of its demangled symbol in stream order, and its total is their sum |
| QbdiStream.Absorb | src/tools/qbdi.rs:118-136 | the loop body applies one classified line |
| QbdiStream.RunLoop | src/tools/qbdi.rs:97-137 | the loop returns the stream specification's result |
| QbdiStream.ToSymbols | src/tools/qbdi.rs:141-148 | one entry per item, each symbol once, with that item's total and kinds |
| Tracer.FnvAppend | qbdi/icount.c:41-46 | hashing `a` then `b` is hashing their concatenation |
| Tracer.BucketOfConcatenation | qbdi/icount.c:41-46 | the bucket is the FNV-1a hash of symbol followed by kind, modulo 4096 |
| Tracer.HashPair | qbdi/icount.c:41-46 | the two byte loops compute that bucket, below 4096 |
| Tracer.Find | qbdi/icount.c:51-59 | the first entry of the chain with that symbol and kind, or none when no entry matches |
| Tracer.BumpedSum | qbdi/icount.c:49-67 | an increment adds exactly one to the chain's grand count |
| Tracer.BumpedOwnCount | qbdi/icount.c:49-67 | an increment raises the pair's own count by one |
| Tracer.BumpedOtherCount | qbdi/icount.c:49-67 | an increment leaves every other pair's count alone |
| Tracer.BumpedNew | qbdi/icount.c:61-66 | a missing pair is pushed at the head of the chain with count 1 |
| Tracer.BumpedDistinct | qbdi/icount.c:49-67 | a chain never holds the same pair twice |
| Tracer.BumpKeepsValid | qbdi/icount.c:49-67 | every entry stays in its own bucket, pairs stay distinct, and the table's total rises by one |
| Tracer.EmptyTableSum | qbdi/icount.c:38 | the empty table counts nothing |
| Tracer.Table.constructor | qbdi/icount.c:38 | all 4096 buckets empty |
| Tracer.Table.Increment | qbdi/icount.c:49-67 | only the pair's bucket changes, to its bumped chain, and one instruction more is counted |
| Tracer.Table.Store | qbdi/icount.c:52-66 | the search result is an increment in place or a push at the head |
| Tracer.Table.OnInstruction | qbdi/icount.c:82-93 | an instruction without a symbol changes nothing; one with a symbol increments its classified pair |
| Tracer.ClassifyKind | qbdi/icount.c:69-80 | the first of branch, call, return, compare, load, store that holds, else the mnemonic |
| Tracer.Table.Dump | qbdi/icount.c:101-108 | the dump lines, bucket by bucket and chain order within each |
| Tracer.DumpChain | qbdi/icount.c:103-107 | one line per entry of the chain, in order |
| Tracer.DumpLineCount | qbdi/icount.c:101-108 | the dump prints exactly one line per table entry |
| Tracer.DumpLineIsPassedThrough | qbdi/icount.c:105 | a dumped `depict_qbdi::` line is not a record for the back end |
| Tracer.DumpLinesUnprefixed | qbdi/icount.c:101-108 | no dumped line carries the back end's `bm::` prefix |
| Tracer.DumpYieldsNoSymbols | qbdi/icount.c:101-108 | fed the whole dump, the back end prints every line and reports total 0 and no symbols |
| Tracer.CorrectedDumpLineParses | qbdi/icount.c:105 | with the `bm::` prefix a dumped entry is read back as exactly its symbol, kind and count |
| Cli.FlagOf | src/main.rs:242-312 | each of the ten flags (`--format`, `--sort`, `--limit`, `--keep`, `--write-results-to`, `--merge-internals`, `--breakdown`, `--quiet`, `--arg`, `--`) is recognised exactly by its spelling |
| Cli.FlagOfProgram | src/main.rs:242-312 | an argument starts the program exactly when it is none of the ten flag spellings |
| Cli.FormatOf | src/main.rs:245-253 | `json` and `markdown` are recognised and anything else, `csv` included, is plain |
| Cli.DirectionOf | src/main.rs:258-265 | `asc`/`ascending` and `desc`/`descending` give the direction, and anything else none |
| Cli.LimitOf | src/main.rs:271-277 | `all` is the largest `usize`, anything else must parse as a `usize` |
| Cli.GenericArgumentOf | src/main.rs:294-301 | fails exactly without `=`; otherwise the name is the text before the first `=`, the values are the trimmed rest split at commas, and they join back to that trimmed rest |
| Cli.ReadArgument | src/main.rs:242-312 | a flag consumes no more arguments than remain |
| Cli.Step | src/main.rs:241-313 | the loop body reads one flag, advancing through the list, as the parse reads it |
| Cli.FromArguments | src/main.rs:218-319 | the loop returns the parse's result on every argument list |
| Cli.ReadArgumentShape | src/main.rs:242-312 | no flag undoes a sort, a switch or an `--arg` name; a flag that stops takes the program from the list |
| Cli.ParseFromStep | src/main.rs:241-313 | the parse is the flag read followed by the parse of what remains |
| Cli.ParseFromShape | src/main.rs:240-318 | a successful parse keeps what was set, and its program and arguments come from the end of the list |
| Cli.ParsedInputShape | src/main.rs:218-238 | a successful parse always has a sort, passes the limit check, never selects CSV |
| Cli.SortLookAhead | src/main.rs:255-266 | a word after `--sort <field>` that is not a direction is read again as the next argument |
| Cli.MissingValue | src/main.rs:243-307 | a value-taking flag at the end of the list panics with its message; `--keep` does not |
| Cli.EndOfFlagsPassesRest | src/main.rs:303-316 | after `--` the next word is the program and the rest its arguments, flags included |
| Cli.CheckLimit | src/main.rs:26-28 | refuses exactly a limit without a sort, and otherwise passes the input on |
| Report.KeyOf | src/main.rs:342-354 | `name` and `total` are the sort keys |
| Report.LeTotal | src/main.rs:341-358 | the comparator is total |
| Report.LeTransitive | src/main.rs:341-358 | the comparator is transitive |
| Report.AscendingPutsLargestFirst | src/main.rs:348-352 | Ascending on totals puts larger totals first, Descending smaller |
| Report.SortRows | src/main.rs:344-352 | the array ends sorted by the key and direction and is a permutation of its old contents |
| Report.Sink | src/main.rs:344-352 | one insertion step extends the sorted prefix and permutes the array |
| Report.Slice | src/main.rs:378-379 | the rows from the skip on, at most `limit` of them |
| Report.WindowAsWrittenDropsLast | src/main.rs:360-379 | as written, a descending sort with limit at most n shows the window ending one row before the last, so the largest row is never shown |
| Report.WindowShape | src/main.rs:360-379 | corrected: min(n+1, limit) rows, the last ones for a descending sort and the first ones otherwise; `Total` is shown exactly when nothing is skipped |
| Report.ShownName | src/main.rs:402-409 | the shown name is exactly min(length, 100) characters long |
| Report.MaxNameLength | src/main.rs:383-389 | the longest name length in the rows |
| Report.PlainOutput | src/main.rs:401-438 | one line per row |
| Report.PlainLayout | src/main.rs:383-417 | every line's name column is min(longest, 100) wide, has the name or its first 97 characters and `...`, space-padded, and is followed by the counts |
| Report.MaxNameWidth | src/main.rs:383-389 | the loop computes the name column width |
| Report.WritePlain | src/main.rs:382-441 | the plain writer produces the plain report |
| Report.CsvRowAsWrittenOneField | src/main.rs:476-506 | as written, a plain CSV row has no comma, so it is one field under a two-field header |
| Report.CsvRowFields | src/main.rs:470-496 | corrected: the header's fields are the headings and each row's fields are its cells, as many as the headings |
| Report.CsvOutput | src/main.rs:469-510 | as written: a header line and one line per row, written as the source writes each row |
| Report.CsvOutputCells | src/main.rs:469-510 | as written: the header's fields are the headings; with breakdown a row's fields are its cells, without it the row splits at `\|` into its cells between two empty ends |
| Report.WriteCsv | src/main.rs:469-510 | the CSV writer's loop produces the as-written CSV report |
| Report.MarkdownHeaderAsWrittenMismatch | src/main.rs:512-540 | as written, the breakdown header has 8 cells while the delimiter and rows have 7 |
| Report.MarkdownColumns | src/main.rs:511-552 | corrected: header, delimiter and each row have one cell per heading |
| Report.MarkdownOutput | src/main.rs:511-554 | as written: the source's header, the delimiter and one line per row |
| Report.MarkdownHeaderAsWrittenCells | src/main.rs:512-517 | as written: the header's cells are the headings, followed by `other` with breakdown |
| Report.MarkdownOutputCells | src/main.rs:511-554 | as written: the header's cells are the headings (plus `other` with breakdown), the delimiter has one cell per heading, and each row's cells are its cells |
| Report.WriteMarkdown | src/main.rs:511-554 | the Markdown writer's loop produces the as-written Markdown report |
| Report.Lookup | src/main.rs:448-464 | a field is found exactly when an object member has that name, with that value |
| Report.JsonFieldsCarry | src/main.rs:448-464 | each object carries the symbol name and total; with breakdown also the counters and `kinds`, and `mem_read` only then |
| Report.JsonObject | src/main.rs:449-463 | an object is enclosed in braces |
| Report.JsonArray | src/main.rs:443-466 | the array is enclosed in brackets |
| Report.JoinSnoc | src/main.rs:445-446 | a comma is written exactly between consecutive objects |
| Report.PushObject | src/main.rs:445-464 | appending an object adds a comma exactly when the buffer already holds one |
| Report.WriteJson | src/main.rs:442-467 | the writer builds the bracketed, comma-separated array of the row objects |
| Report.SortMessage | src/main.rs:354-356 | one error line exactly when a sort names a field other than `name` or `total` |
| Report.RenderLength | src/main.rs:381-555 | line counts: one per row for plain, one for JSON, plus one for CSV, plus two for Markdown |
| Report.WindowAsWrittenShape | src/main.rs:360-379 | as written: the window has min(rows left after the skip, limit) rows; it is a prefix of the rows with `Total` unless descending with a limit below the row count, when it is the `limit` rows ending just before `Total` |
| Report.TakeWindow | src/main.rs:360-379 | the shown rows are the window as written, the skip taken before `Total` is inserted |
| Report.WriteFormat | src/main.rs:381-555 | the chosen format's writer renders the shown rows as the source writes them |
| Report.PrintResults | src/main.rs:322-556 | the rows are sorted and permuted by a known key (unsorted otherwise); the output is the error line, if any, then the as-written rendering of the as-written window |
| SdeTool.ReportPath | src/tools/sde.rs:10 | the `--keep` path, or `sde-out.txt` |
| SdeTool.EmulatorPath | src/tools/sde.rs:16-25 | the adjacent emulator if it exists, else `$SDE_PATH/sde`, else `sde` |
| SdeTool.EmulatorArgs | src/tools/sde.rs:27-37 | the mix options with the report path and 50 top blocks, then `--`, the program and its arguments |
| SdeTool.EmulatorSeesProgram | src/tools/sde.rs:27-37 | the first `--` is at position 5, and after it come exactly the program and its arguments |
| SdeTool.ToEntry | src/tools/sde.rs:53-63 | an entry with the name, the total and the five labelled counters |
| SdeTool.ToEntries | src/tools/sde.rs:51-64 | one entry per parsed row, in order |
| SdeTool.FoldedTotal | src/tools/sde.rs:66 | the fold of the entries' totals is the sum of the parser's totals |
| SdeTool.RunSde | src/tools/sde.rs:6-73 | succeeds exactly when the report parses; the entries are the rows mapped by `ToEntry` (name, total and the five labelled counters), in order, their total is the parsed sum, and the report is removed exactly without `--keep` |

## Left out

- Process spawning, pipes, files, environment variables, `std::fs::exists` and
  `child.wait()` are I/O. Their inputs become parameters: the emulator lookup's
  answers, the report's lines and the traced program's output lines. Their
  effects become returned values: the output lines, and whether the report is
  removed.
- The Windows and macOS launch paths of `run_qbdi` (src/tools/qbdi.rs:17-94),
  the QBDI preload callbacks and log levels (qbdi/icount.c:12-27, 95-99), and
  the `wall_clock` and `perf_events` tools are not part of this model.
- `main`'s dispatch on the tool name and the `PairedWriter` are not part of this
  model. `--merge-internals` is parsed; the QBDI and SDE back ends take their own
  skip flag as a parameter.
- Counters are unbounded naturals; `u32` overflow of `+=` and of
  `total += count` is not modelled. The parsers bound each parsed count by
  `u32::MAX`, and the report requires its printed counters to fit a `u32`.
- Utilities.ToDenary: the debug-build overflow panic of `10i32.pow(i)` is
  modelled as a `Failure`; release-build wrap-around is not modelled.
- `rustc_demangle` is a function parameter of the QBDI stream model; what it
  returns is not modelled.
- HashMap iteration order is unspecified: `ToSymbols` picks keys in an arbitrary
  order and promises only that each appears once.
- `sort_unstable_by`: the model sorts with an insertion sort, so the order among
  equal keys is one of those the source may produce, not necessarily the same.
- Tracer: the C linked chains are sequences of entries; `calloc`, `strdup`,
  NUL-terminated strings and aliasing between entries are not modelled. Bytes are
  unsigned (`bv8`), so a platform where `char` is signed and a name has a byte
  of 128 or more would hash differently.
- Tracer.Table.Increment: the 64-bit counter is a natural; wrap-around after
  2^64 increments is not modelled.
- Tracer: the C side's bytes are written as characters below 256. The Rust side
  decodes the program's output as UTF-8 (`content.lines()` and `line.unwrap()`,
  src/tools/qbdi.rs:99-100): a byte sequence that is not UTF-8 panics there, and
  a multi-byte character is read as one character. The model's lines are the
  decoded characters; decoding is not modelled.
- Names are sequences of characters: `str::len` counts UTF-8 bytes and
  `&name[..97]` can panic inside a multi-byte character. The model counts
  characters and takes the first 97.
- SdeParser.UnescapeEscape: the round trip is proved only for names with no `$`
  and no `>` directly followed by `L`. A name holding `$LT$` or `$GT$` text is
  unescaped as well, and `>LT<` escapes to `$GT$LT$LT$`, which unescapes to
  `$GT<LT$`: the `$` that closes `$GT$` is read as the start of a `$LT$`, which
  is replaced first.
- Report.JsonObject: the text of one JSON member, produced by
  `json_builder_macro`, is a function parameter. The model fixes the framing, the
  fields and their order, not the member syntax.
- Report.UnknownField: the field is written between plain quotes. Rust's `{:?}`
  escaping of quotes and backslashes inside the field is not modelled.
- The `eprintln!` warning for an unknown format and the debug printing of lines
  (src/tools/qbdi.rs:104) go to standard error and are left out.
- The CSV writer cannot be selected from the command line, since `--format csv` is
  plain. It is modelled for the `print_results` entry point.
- JSON output is one line with no trailing newline; the model returns it as one
  element of the output lines.

## Findings

| source | as written | input that shows it | evidently intended | confidence | as-written member | corrected member |
|---|---|---|---|---|---|---|
| src/main.rs:360-379 | the descending skip `rows.len().saturating_sub(limit)` is taken before `Total` is inserted, so the window is one row short of the end | totals 1, 2, 3 sorted descending with `--limit 1` show only the row with total 2 | show the last `limit` rows, i.e. skip `(n + 1) - limit` | high that the row is dropped; not executed | Report.WindowAsWrittenDropsLast | Report.WindowShape |
| qbdi/icount.c:105 | the tracer prints records as `depict_qbdi::sym/kind/count` while the back end reads only lines starting `bm::` (src/tools/qbdi.rs:106) | any traced run: every record is echoed as output and the report has total 0 and no symbols | one shared prefix, so each dumped record is counted | medium, the two halves may be built from different revisions; not executed | Tracer.DumpYieldsNoSymbols | Tracer.CorrectedDumpLineParses |
| src/main.rs:512-517 | the Markdown breakdown header has 8 cells (`other` included), the delimiter and rows 7 | `--format markdown --breakdown` with any row | header, delimiter and rows with the same 7 columns | high; not executed | Report.MarkdownHeaderAsWrittenMismatch | Report.MarkdownColumns |
| src/main.rs:506 | a plain CSV row is written in Markdown form, `` |`name`|total| ``, with no comma | the CSV writer without breakdown, any row whose name has no comma | `name,total`, two fields matching the `symbol name,count` header | high; not executed | Report.CsvRowAsWrittenOneField | Report.CsvRowFields |
