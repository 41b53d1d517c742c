/**
 * The line loop of `run_qbdi` (`src/tools/qbdi.rs`): the traced program's standard output is
 * read line by line; `bm::<func>/<kind>/<count>` lines are tallied per demangled function,
 * everything else is passed through to the user unchanged.
 */
module QbdiStream {
  import opened Common
  import opened Text
  import opened ToolShapes

  /** `Item`: a function's running total and its `(kind, count)` pairs in arrival order. */
  datatype Item = Item(total: nat, instructionKind: seq<(string, nat)>)

  /** `Item::default()`. */
  const EmptyItem: Item := Item(0, [])

  const RECORD_PREFIX: string := "bm::"

  /** Demangled names the internals filter drops, by prefix. */
  const BAD_PREFIXES: seq<string> := ["std::", "core::", "alloc::", "_", "*", "OUTLINED_FUNCTION_"]

  /** `prefixes.iter().any(|prefix| name.starts_with(prefix))`. */
  predicate AnyPrefix(name: string, prefixes: seq<string>) {
    |prefixes| > 0 && (StartsWith(name, prefixes[0]) || AnyPrefix(name, prefixes[1..]))
  }

  /** Whether the internals filter drops the function `name`. */
  predicate IsInternalName(name: string) {
    AnyPrefix(name, BAD_PREFIXES)
  }

  /** What one line of the stream is. */
  datatype LineKind =
    | Passthrough                                   // not a record: printed to the user
    | Ignored                                       // a record without `/`, or with an unparsable count
    | Record(func: string, kind: string, count: nat)

  /**
   * Splits a line as the loop does. A record whose function part is followed by a single `/`
   * makes the second `split_once(...).unwrap()` panic, modelled as a failure.
   */
  function Classify(line: string): (r: Result<LineKind, string>)
    ensures !StartsWith(line, RECORD_PREFIX) ==> r == Success(Passthrough)
    ensures r.Success? && r.value.Record? ==> StartsWith(line, RECORD_PREFIX) && '/' !in r.value.func && '/' !in r.value.kind
  {
    match StripPrefix(line, RECORD_PREFIX)
    case None => Success(Passthrough)
    case Some(rest) =>
      match SplitOnce(rest, '/')
      case None => Success(Ignored)
      case Some((func, rest2)) =>
        match SplitOnce(rest2, '/')
        case None => Failure(UNWRAP_NONE)
        case Some((kind, count)) =>
          match ParseUnsigned(count, U32_MAX)
          case None => Success(Ignored)
          case Some(n) => Success(Record(func, kind, n))
  }

  const UNWRAP_NONE: string := "called `Option::unwrap()` on a `None` value"

  /** The variables of the loop: the grand total, the per-function items and what was printed. */
  datatype StreamState = StreamState(total: nat, items: map<string, Item>, output: seq<string>)

  const Start: StreamState := StreamState(0, map[], [])

  /** Whether `r` is a success holding exactly these loop variables. */
  predicate Yields(r: Result<StreamState, string>, total: nat, items: map<string, Item>, output: seq<string>) {
    r.Success? && r.value.total == total && r.value.items == items && r.value.output == output
  }

  /** `items.entry(name).or_default()`. */
  function Lookup(items: map<string, Item>, name: string): Item {
    if name in items then items[name] else EmptyItem
  }

  /** `item.total += count; item.instruction_kind.push((kind, count))`. */
  function Extend(item: Item, pair: (string, nat)): Item {
    Item(item.total + pair.1, item.instructionKind + [pair])
  }

  /** The effect of a line of the given kind on the loop's variables. */
  function Apply(st: StreamState, line: string, kind: LineKind, demangle: string -> string, skipInternals: bool): StreamState {
    match kind
    case Passthrough => st.(output := st.output + [line])
    case Ignored => st
    case Record(func, kind, count) =>
      var name := demangle(func);
      if skipInternals && IsInternalName(name) then st.(total := st.total + count)
      else StreamState(st.total + count, st.items[name := Extend(Lookup(st.items, name), (kind, count))], st.output)
  }

  /** The effect of one line on the loop's variables, or the panic that ends the loop. */
  function Feed(st: StreamState, line: string, demangle: string -> string, skipInternals: bool): Result<StreamState, string> {
    match Classify(line)
    case Failure(e) => Failure(e)
    case Success(kind) => Success(Apply(st, line, kind, demangle, skipInternals))
  }

  /** The loop's variables after the given lines, or the first failure. */
  function Process(lines: seq<string>, demangle: string -> string, skipInternals: bool): Result<StreamState, string> {
    if |lines| == 0 then Success(Start)
    else
      match Process(lines[..|lines| - 1], demangle, skipInternals)
      case Failure(e) => Failure(e)
      case Success(st) => Feed(st, lines[|lines| - 1], demangle, skipInternals)
  }

  /** Once a line has failed, so has every longer run. */
  lemma {:induction false} FailureSticks(lines: seq<string>, i: nat, demangle: string -> string, skipInternals: bool)
    requires i <= |lines| && Process(lines[..i], demangle, skipInternals).Failure?
    ensures Process(lines, demangle, skipInternals) == Process(lines[..i], demangle, skipInternals)
    decreases |lines| - i
  {
    if i < |lines| {
      assert lines[..i + 1][..i] == lines[..i];
      FailureSticks(lines, i + 1, demangle, skipInternals);
    } else {
      assert lines[..i] == lines;
    }
  }

  /** One more line: the definition of `Process`, read from the front. */
  lemma ProcessStep(lines: seq<string>, i: nat, demangle: string -> string, skipInternals: bool)
    requires i < |lines| && Process(lines[..i], demangle, skipInternals).Success?
    ensures Process(lines[..i + 1], demangle, skipInternals)
         == Feed(Process(lines[..i], demangle, skipInternals).value, lines[i], demangle, skipInternals)
  {
    assert lines[..i + 1][..i] == lines[..i];
  }

  /**
   * The body of the loop of `run_qbdi` for a line already split: a printed line, a skipped
   * record, or a record that always adds to the grand total and, unless the filter drops its
   * demangled function, extends that function's item.
   */
  method Absorb(line: string, lineKind: LineKind, total: nat, items: map<string, Item>, output: seq<string>, demangle: string -> string, skipInternals: bool)
    returns (total': nat, items': map<string, Item>, output': seq<string>)
    ensures var next := Apply(StreamState(total, items, output), line, lineKind, demangle, skipInternals);
      total' == next.total && items' == next.items && output' == next.output
  {
    total', items', output' := total, items, output;
    match lineKind {
      case Passthrough =>
        output' := output + [line];
      case Ignored =>
      case Record(func, kind, count) =>
        total' := total + count;
        var name := demangle(func);
        if skipInternals && IsInternalName(name) {
          return;
        }
        items' := items[name := Extend(Lookup(items, name), (kind, count))];
    }
  }

  /**
   * The loop of `run_qbdi` over the captured lines. The first line whose second `/` is
   * missing ends the run with the panic's message.
   */
  method RunLoop(lines: seq<string>, demangle: string -> string, skipInternals: bool) returns (r: Result<StreamState, string>)
    ensures r == Process(lines, demangle, skipInternals)
  {
    var items: map<string, Item> := map[];
    var total: nat := 0;
    var output: seq<string> := [];
    for i := 0 to |lines|
      invariant Yields(Process(lines[..i], demangle, skipInternals), total, items, output)
    {
      ProcessStep(lines, i, demangle, skipInternals);
      match Classify(lines[i]) {
        case Failure(e) =>
          FailureSticks(lines, i + 1, demangle, skipInternals);
          return Failure(e);
        case Success(lineKind) =>
          total, items, output := Absorb(lines[i], lineKind, total, items, output, demangle, skipInternals);
      }
    }
    assert lines[..|lines|] == lines;
    return Success(StreamState(total, items, output));
  }

  // ---------------------------------------------------------------------------
  // Reference tallies over the input lines

  /** The count of a line that is an accepted record, before any filtering; 0 otherwise. */
  function AcceptedCount(line: string): nat {
    match Classify(line)
    case Success(Record(_, _, count)) => count
    case _ => 0
  }

  function SumAccepted(lines: seq<string>): nat {
    if |lines| == 0 then 0 else SumAccepted(lines[..|lines| - 1]) + AcceptedCount(lines[|lines| - 1])
  }

  /** The lines printed to the user, in order: those without the record prefix. */
  function Passed(lines: seq<string>): seq<string> {
    if |lines| == 0 then []
    else Passed(lines[..|lines| - 1]) + (if StartsWith(lines[|lines| - 1], RECORD_PREFIX) then [] else [lines[|lines| - 1]])
  }

  /** The demangled function and `(kind, count)` of a record line that survives the filter. */
  function KeptRecord(line: string, demangle: string -> string, skipInternals: bool): Option<(string, (string, nat))> {
    match Classify(line)
    case Success(Record(func, kind, count)) =>
      if skipInternals && IsInternalName(demangle(func)) then None else Some((demangle(func), (kind, count)))
    case _ => None
  }

  /** A kept record: the demangled function and its `(kind, count)` pair. */
  type Kept = (string, (string, nat))

  /** The kept records of the lines, in input order. */
  function KeptRecords(lines: seq<string>, demangle: string -> string, skipInternals: bool): seq<Kept> {
    if |lines| == 0 then []
    else
      var k := KeptRecord(lines[|lines| - 1], demangle, skipInternals);
      KeptRecords(lines[..|lines| - 1], demangle, skipInternals) + (if k.Some? then [k.value] else [])
  }

  /** The pairs of the records of function `name`, in order. */
  function KindsOf(records: seq<Kept>, name: string): seq<(string, nat)> {
    if |records| == 0 then []
    else KindsOf(records[..|records| - 1], name) + (if records[|records| - 1].0 == name then [records[|records| - 1].1] else [])
  }

  /** The distinct functions of the records. */
  function NamesOf(records: seq<Kept>): set<string> {
    if |records| == 0 then {} else NamesOf(records[..|records| - 1]) + {records[|records| - 1].0}
  }

  // ---------------------------------------------------------------------------
  // Properties

  /** Splitting a well-formed record line recovers its function, kind and count. */
  lemma ClassifyRecord(func: string, kind: string, count: string)
    requires '/' !in func && '/' !in kind && ParseUnsigned(count, U32_MAX).Some?
    ensures Classify(RECORD_PREFIX + func + ['/'] + kind + ['/'] + count)
         == Success(Record(func, kind, ParseUnsigned(count, U32_MAX).value))
  {
    var line := RECORD_PREFIX + func + ['/'] + kind + ['/'] + count;
    assert line[..|RECORD_PREFIX|] == RECORD_PREFIX && line[|RECORD_PREFIX|..] == func + ['/'] + (kind + ['/'] + count);
    SplitOnceAt(func, '/', kind + ['/'] + count);
    SplitOnceAt(kind, '/', count);
  }

  /** A line without the record prefix is printed and changes neither the total nor the items. */
  lemma PassthroughLine(st: StreamState, line: string, demangle: string -> string, skipInternals: bool)
    requires !StartsWith(line, RECORD_PREFIX)
    ensures Yields(Feed(st, line, demangle, skipInternals), st.total, st.items, st.output + [line])
  {
  }

  /** A stream without any record line is printed as it is, and nothing is counted. */
  lemma {:induction false} AllPassthrough(lines: seq<string>, demangle: string -> string, skipInternals: bool)
    requires forall i :: 0 <= i < |lines| ==> !StartsWith(lines[i], RECORD_PREFIX)
    ensures Yields(Process(lines, demangle, skipInternals), 0, map[], lines)
  {
    if |lines| > 0 {
      var init := lines[..|lines| - 1];
      AllPassthrough(init, demangle, skipInternals);
      PassthroughLine(Process(init, demangle, skipInternals).value, lines[|lines| - 1], demangle, skipInternals);
      assert init + [lines[|lines| - 1]] == lines;
    }
  }

  /** A record without any `/` after the prefix is skipped without effect. */
  lemma RecordWithoutSlashIgnored(st: StreamState, rest: string, demangle: string -> string, skipInternals: bool)
    requires '/' !in rest
    ensures Yields(Feed(st, RECORD_PREFIX + rest, demangle, skipInternals), st.total, st.items, st.output)
  {
    assert StripPrefix(RECORD_PREFIX + rest, RECORD_PREFIX) == Some(rest) by {
      assert (RECORD_PREFIX + rest)[..|RECORD_PREFIX|] == RECORD_PREFIX;
      assert (RECORD_PREFIX + rest)[|RECORD_PREFIX|..] == rest;
    }
  }

  /** A record with a single `/` is a failure; one whose count does not parse is skipped. */
  lemma MalformedRecords(st: StreamState, func: string, kind: string, count: string, demangle: string -> string, skipInternals: bool)
    requires '/' !in func && '/' !in kind
    ensures Feed(st, RECORD_PREFIX + func + ['/'] + kind, demangle, skipInternals) == Failure(UNWRAP_NONE)
    ensures ParseUnsigned(count, U32_MAX).None? ==>
      Yields(Feed(st, RECORD_PREFIX + func + ['/'] + kind + ['/'] + count, demangle, skipInternals), st.total, st.items, st.output)
  {
    OneSlashFails(func, kind);
    if ParseUnsigned(count, U32_MAX).None? {
      BadCountIgnored(func, kind, count);
    }
  }

  /** The classification of a record with a single `/`: the second `unwrap` panics. */
  lemma OneSlashFails(func: string, kind: string)
    requires '/' !in func && '/' !in kind
    ensures Classify(RECORD_PREFIX + func + ['/'] + kind) == Failure(UNWRAP_NONE)
  {
    var one := RECORD_PREFIX + func + ['/'] + kind;
    assert one[..|RECORD_PREFIX|] == RECORD_PREFIX && one[|RECORD_PREFIX|..] == func + ['/'] + kind;
    assert StripPrefix(one, RECORD_PREFIX) == Some(func + ['/'] + kind);
    SplitOnceAt(func, '/', kind);
  }

  /** The classification of a record whose count does not parse: it is skipped. */
  lemma BadCountIgnored(func: string, kind: string, count: string)
    requires '/' !in func && '/' !in kind && ParseUnsigned(count, U32_MAX).None?
    ensures Classify(RECORD_PREFIX + func + ['/'] + kind + ['/'] + count) == Success(Ignored)
  {
    var two := RECORD_PREFIX + func + ['/'] + kind + ['/'] + count;
    assert two[..|RECORD_PREFIX|] == RECORD_PREFIX && two[|RECORD_PREFIX|..] == func + ['/'] + (kind + ['/'] + count);
    assert StripPrefix(two, RECORD_PREFIX) == Some(func + ['/'] + (kind + ['/'] + count));
    SplitOnceAt(func, '/', kind + ['/'] + count);
    SplitOnceAt(kind, '/', count);
  }

  /** One successful line, in terms of the reference tallies. */
  lemma FeedEffect(st: StreamState, line: string, demangle: string -> string, skipInternals: bool)
    requires Feed(st, line, demangle, skipInternals).Success?
    ensures var next := Feed(st, line, demangle, skipInternals).value;
      && next.total == st.total + AcceptedCount(line)
      && next.output == st.output + (if StartsWith(line, RECORD_PREFIX) then [] else [line])
      && next.items == match KeptRecord(line, demangle, skipInternals)
                       case None => st.items
                       case Some((name, pair)) => st.items[name := Extend(Lookup(st.items, name), pair)]
  {
    var next := Feed(st, line, demangle, skipInternals).value;
    var lineKind := Classify(line).value;
    assert next == Apply(st, line, lineKind, demangle, skipInternals);
    match lineKind
    case Passthrough =>
    case Ignored =>
    case Record(func, kind, count) =>
      if skipInternals && IsInternalName(demangle(func)) {
        assert KeptRecord(line, demangle, skipInternals).None?;
      } else {
        assert KeptRecord(line, demangle, skipInternals) == Some((demangle(func), (kind, count)));
      }
  }

  /**
   * The grand total is the sum of the counts of all accepted records, including those the
   * filter then drops; the printed lines are exactly the non-record lines, in order.
   */
  lemma {:induction false} ProcessTotals(lines: seq<string>, demangle: string -> string, skipInternals: bool)
    requires Process(lines, demangle, skipInternals).Success?
    ensures Process(lines, demangle, skipInternals).value.total == SumAccepted(lines)
    ensures Process(lines, demangle, skipInternals).value.output == Passed(lines)
  {
    if |lines| > 0 {
      var init := lines[..|lines| - 1];
      ProcessTotals(init, demangle, skipInternals);
      FeedEffect(Process(init, demangle, skipInternals).value, lines[|lines| - 1], demangle, skipInternals);
    }
  }

  /** A name that no record carries has no pairs. */
  lemma {:induction false} KindsOfUnnamed(records: seq<Kept>, name: string)
    requires name !in NamesOf(records)
    ensures KindsOf(records, name) == []
  {
    if |records| > 0 {
      KindsOfUnnamed(records[..|records| - 1], name);
    }
  }

  /** Whether one function's item agrees with the records: its pairs in order, and their sum. */
  ghost predicate ItemMatches(item: Item, records: seq<Kept>, name: string) {
    item.instructionKind == KindsOf(records, name) && item.total == SumCounts(item.instructionKind)
  }

  /** Whether the items agree with the records: keys, pairs in order, totals. */
  ghost predicate ItemsMatch(items: map<string, Item>, records: seq<Kept>) {
    && items.Keys == NamesOf(records)
    && forall name :: name in items ==> ItemMatches(items[name], records, name)
  }

  /** One more record adds its pair to its own function's pairs and its name to the names. */
  lemma KindsOfSnoc(records: seq<Kept>, record: Kept, n: string)
    ensures KindsOf(records + [record], n) == KindsOf(records, n) + (if record.0 == n then [record.1] else [])
    ensures NamesOf(records + [record]) == NamesOf(records) + {record.0}
  {
    assert (records + [record])[..|records|] == records;
  }

  /** The record's own function's item, extended by the record, agrees with the longer records. */
  lemma ExtendedItemMatches(items: map<string, Item>, records: seq<Kept>, name: string, pair: (string, nat))
    requires ItemsMatch(items, records)
    ensures ItemMatches(Extend(Lookup(items, name), pair), records + [(name, pair)], name)
  {
    var item := Lookup(items, name);
    if name in items {
      assert ItemMatches(items[name], records, name);
    } else {
      KindsOfUnnamed(records, name);
    }
    assert ItemMatches(item, records, name);
    KindsOfSnoc(records, (name, pair), name);
    SumCountsAppend(item.instructionKind, pair);
  }

  /** Any other function's item is unchanged and still agrees with the longer records. */
  lemma OtherItemMatches(items: map<string, Item>, records: seq<Kept>, name: string, pair: (string, nat), n: string)
    requires ItemsMatch(items, records) && n in items && n != name
    ensures ItemMatches(items[n], records + [(name, pair)], n)
  {
    assert ItemMatches(items[n], records, n);
    KindsOfSnoc(records, (name, pair), n);
  }

  /** One more record extends its function's item, creating it if needed, and keeps the agreement. */
  lemma ItemsMatchExtend(items: map<string, Item>, records: seq<Kept>, name: string, pair: (string, nat))
    requires ItemsMatch(items, records)
    ensures ItemsMatch(items[name := Extend(Lookup(items, name), pair)], records + [(name, pair)])
  {
    var next := records + [(name, pair)];
    var after := items[name := Extend(Lookup(items, name), pair)];
    KindsOfSnoc(records, (name, pair), name);
    assert after.Keys == NamesOf(next);
    ExtendedItemMatches(items, records, name, pair);
    forall n | n in after
      ensures ItemMatches(after[n], next, n)
    {
      if n != name {
        OtherItemMatches(items, records, name, pair, n);
      }
    }
  }

  /**
   * The items are keyed by the distinct kept demangled names; each item's pairs are that
   * function's kept records in input order (kinds are not aggregated), and its total is their sum.
   */
  lemma {:induction false} ProcessItems(lines: seq<string>, demangle: string -> string, skipInternals: bool)
    requires Process(lines, demangle, skipInternals).Success?
    ensures ItemsMatch(Process(lines, demangle, skipInternals).value.items, KeptRecords(lines, demangle, skipInternals))
  {
    if |lines| > 0 {
      var init := lines[..|lines| - 1];
      ProcessItems(init, demangle, skipInternals);
      var before := Process(init, demangle, skipInternals).value;
      FeedEffect(before, lines[|lines| - 1], demangle, skipInternals);
      match KeptRecord(lines[|lines| - 1], demangle, skipInternals)
      case None =>
        assert KeptRecords(lines, demangle, skipInternals) == KeptRecords(init, demangle, skipInternals);
      case Some((name, pair)) =>
        assert KeptRecords(lines, demangle, skipInternals) == KeptRecords(init, demangle, skipInternals) + [(name, pair)];
        ItemsMatchExtend(before.items, KeptRecords(init, demangle, skipInternals), name, pair);
    }
  }

  // ---------------------------------------------------------------------------
  // From the map to the list of symbols

  function EntryOf(name: string, item: Item): ToolEntry {
    ToolEntry(name, item.total, item.instructionKind)
  }

  /**
   * `symbols` lists the entries of exactly the functions in `names`, each once, each built
   * from its item.
   */
  ghost predicate Listed(symbols: seq<ToolEntry>, names: set<string>, items: map<string, Item>) {
    && (forall j :: 0 <= j < |symbols| ==>
          symbols[j].symbolName in names && symbols[j].symbolName in items
          && symbols[j] == EntryOf(symbols[j].symbolName, items[symbols[j].symbolName]))
    && (forall name :: name in names ==> exists j :: 0 <= j < |symbols| && symbols[j].symbolName == name)
    && (forall j, l :: 0 <= j < l < |symbols| ==> symbols[j].symbolName != symbols[l].symbolName)
  }

  /** Appending the entry of a function not yet listed keeps the listing exact. */
  lemma ListedAppend(symbols: seq<ToolEntry>, names: set<string>, items: map<string, Item>, name: string)
    requires Listed(symbols, names, items) && name in items && name !in names
    ensures Listed(symbols + [EntryOf(name, items[name])], names + {name}, items)
  {
    var next := symbols + [EntryOf(name, items[name])];
    forall j | 0 <= j < |next|
      ensures next[j].symbolName in names + {name} && next[j].symbolName in items
      ensures next[j] == EntryOf(next[j].symbolName, items[next[j].symbolName])
    {
      if j < |symbols| {
        assert next[j] == symbols[j];
      }
    }
    forall j, l | 0 <= j < l < |next|
      ensures next[j].symbolName != next[l].symbolName
    {
      assert next[j] == symbols[j];
      if l < |symbols| {
        assert next[l] == symbols[l];
      }
    }
    forall n | n in names + {name}
      ensures exists j :: 0 <= j < |next| && next[j].symbolName == n
    {
      if n == name {
        assert next[|symbols|].symbolName == n;
      } else {
        var j :| 0 <= j < |symbols| && symbols[j].symbolName == n;
        assert next[j].symbolName == n;
      }
    }
  }

  /**
   * `items.into_iter().map(..).collect()`: one entry per item, each function once, in the
   * map's unspecified iteration order.
   */
  method ToSymbols(items: map<string, Item>) returns (symbols: seq<ToolEntry>)
    ensures |symbols| == |items|
    ensures Listed(symbols, items.Keys, items)
  {
    symbols := [];
    var pending := items.Keys;
    while pending != {}
      invariant pending <= items.Keys
      invariant |symbols| + |pending| == |items|
      invariant Listed(symbols, items.Keys - pending, items)
      decreases pending
    {
      var name :| name in pending;
      ListedAppend(symbols, items.Keys - pending, items, name);
      assert items.Keys - (pending - {name}) == (items.Keys - pending) + {name};
      symbols := symbols + [EntryOf(name, items[name])];
      pending := pending - {name};
    }
    assert items.Keys - pending == items.Keys;
  }
}
