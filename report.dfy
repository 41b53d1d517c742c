/**
 * `print_results` in `src/main.rs`: the in-place sort of the rows by name or by
 * total, the window of rows that are shown together with the `Total` row, and
 * the four renderers (plain text, JSON, CSV, Markdown).
 *
 * Output is the sequence of lines written; a `write!` followed by `writeln!`
 * makes one line, and the JSON array, written without a newline, is one line.
 */
module Report {
  import opened Common
  import opened Text
  import opened Utilities
  import opened Counters
  import opened Cli

  // ---------------------------------------------------------------------------
  // Sorting

  /** The two fields `print_results` can sort by. */
  datatype SortKey = ByName | ByTotal

  /** The sort field named on the command line; any other name is an error. */
  function KeyOf(field: string): (k: Option<SortKey>)
    ensures k == Some(ByName) <==> field == "name"
    ensures k == Some(ByTotal) <==> field == "total"
  {
    if field == "name" then Some(ByName) else if field == "total" then Some(ByTotal) else None
  }

  /** The comparator handed to `sort_unstable_by`: `Direction::compare` on the key. */
  function Compare(key: SortKey, d: Direction, x: Entry, y: Entry): Ordering {
    match key
    case ByName => Apply(d, CmpStr(x.symbolName, y.symbolName))
    case ByTotal => Apply(d, CmpNat(x.statistics.total, y.statistics.total))
  }

  /** `x` may come before `y`. */
  predicate Le(key: SortKey, d: Direction, x: Entry, y: Entry) {
    !Compare(key, d, x, y).Greater?
  }

  /** Any two rows can be put in some order. */
  lemma LeTotal(key: SortKey, d: Direction, x: Entry, y: Entry)
    ensures Le(key, d, x, y) || Le(key, d, y, x)
  {
    if key.ByName? {
      CmpStrFlip(x.symbolName, y.symbolName);
    }
  }

  /** The order is transitive. */
  lemma LeTransitive(key: SortKey, d: Direction, x: Entry, y: Entry, z: Entry)
    requires Le(key, d, x, y) && Le(key, d, y, z)
    ensures Le(key, d, x, z)
  {
    if key.ByName? {
      var a, b, c := x.symbolName, y.symbolName, z.symbolName;
      CmpStrFlip(a, b);
      CmpStrFlip(b, c);
      CmpStrFlip(a, c);
      if d.Descending? {
        CmpStrTransitive(a, b, c);
      } else {
        CmpStrTransitive(c, b, a);
      }
    }
  }

  /** The ascending direction puts larger totals first: it reverses the natural order. */
  lemma AscendingPutsLargestFirst(x: Entry, y: Entry)
    ensures Le(ByTotal, Ascending, x, y) <==> x.statistics.total >= y.statistics.total
    ensures Le(ByTotal, Descending, x, y) <==> x.statistics.total <= y.statistics.total
  {
  }

  /** Every pair of the first `n` rows of `s` is in order. */
  ghost predicate SortedUpTo(key: SortKey, d: Direction, s: seq<Entry>, n: nat)
    requires n <= |s|
  {
    forall k, l :: 0 <= k < l < n ==> Le(key, d, s[k], s[l])
  }

  ghost predicate SortedBy(key: SortKey, d: Direction, s: seq<Entry>) {
    SortedUpTo(key, d, s, |s|)
  }

  /**
   * While the row at `j` sinks into the sorted prefix `s[..i + 1]`: every pair
   * without `j` is in order, and the row at `j` is in order with every row after it.
   */
  ghost predicate Sinking(key: SortKey, d: Direction, s: seq<Entry>, i: nat, j: nat)
    requires j <= i < |s|
  {
    && (forall k, l :: 0 <= k < l <= i && k != j && l != j ==> Le(key, d, s[k], s[l]))
    && (forall l :: j < l <= i ==> Le(key, d, s[j], s[l]))
  }

  /** A sorted prefix of `i` rows and a new row at `i` to sink. */
  lemma SinkStart(key: SortKey, d: Direction, s: seq<Entry>, i: nat)
    requires i < |s| && SortedUpTo(key, d, s, i)
    ensures Sinking(key, d, s, i, i)
  {
  }

  /** Swapping the sinking row with a larger predecessor moves it down by one. */
  lemma SinkSwap(key: SortKey, d: Direction, s: seq<Entry>, i: nat, j: nat)
    requires 0 < j <= i < |s| && Sinking(key, d, s, i, j) && !Le(key, d, s[j - 1], s[j])
    ensures Sinking(key, d, s[j - 1 := s[j]][j := s[j - 1]], i, j - 1)
  {
    var t := s[j - 1 := s[j]][j := s[j - 1]];
    LeTotal(key, d, s[j - 1], s[j]);
    forall l | j - 1 < l <= i
      ensures Le(key, d, t[j - 1], t[l])
    {
      if l > j {
        // `s[j]` already precedes everything after it
      }
    }
  }

  /** Once the sinking row is not smaller than its predecessor, the prefix `s[..i + 1]` is sorted. */
  lemma SinkDone(key: SortKey, d: Direction, s: seq<Entry>, i: nat, j: nat)
    requires j <= i < |s| && Sinking(key, d, s, i, j)
    requires j == 0 || Le(key, d, s[j - 1], s[j])
    ensures SortedUpTo(key, d, s, i + 1)
  {
    forall k, l | 0 <= k < l <= i
      ensures Le(key, d, s[k], s[l])
    {
      if l == j && k < j - 1 {
        LeTransitive(key, d, s[k], s[j - 1], s[j]);
      }
    }
  }

  /**
   * `rows.sort_unstable_by(...)`: an insertion sort by exchanges. The result is a
   * permutation of the rows in which every pair is in order; as for an unstable
   * sort, the order of rows that compare equal is not specified.
   */
  method SortRows(a: array<Entry>, key: SortKey, d: Direction)
    modifies a
    ensures SortedBy(key, d, a[..])
    ensures multiset(a[..]) == multiset(old(a[..]))
  {
    if a.Length == 0 {
      return;
    }
    var i := 1;
    while i < a.Length
      invariant 1 <= i <= a.Length
      invariant SortedUpTo(key, d, a[..], i)
      invariant multiset(a[..]) == multiset(old(a[..]))
    {
      Sink(a, key, d, i);
      i := i + 1;
    }
  }

  /** One pass of the insertion sort: the row at `i` sinks into the sorted prefix before it. */
  method Sink(a: array<Entry>, key: SortKey, d: Direction, i: nat)
    requires i < a.Length && SortedUpTo(key, d, a[..], i)
    modifies a
    ensures SortedUpTo(key, d, a[..], i + 1)
    ensures multiset(a[..]) == multiset(old(a[..]))
  {
    SinkStart(key, d, a[..], i);
    var j := i;
    while j > 0 && !Le(key, d, a[j - 1], a[j])
      invariant 0 <= j <= i
      invariant Sinking(key, d, a[..], i, j)
      invariant multiset(a[..]) == multiset(old(a[..]))
    {
      ghost var s := a[..];
      SinkSwap(key, d, s, i, j);
      a[j - 1], a[j] := a[j], a[j - 1];
      assert a[..] == s[j - 1 := s[j]][j := s[j - 1]];
      j := j - 1;
    }
    SinkDone(key, d, a[..], i, j);
  }

  // ---------------------------------------------------------------------------
  // The window of shown rows

  /** The name of the summary row inserted before the sorted rows. */
  const TOTAL_ROW := "Total"

  function Min(a: nat, b: nat): nat {
    if a <= b then a else b
  }

  /** `a.saturating_sub(b)`. */
  function SaturatingSub(a: nat, b: nat): (r: nat)
    ensures r == if a >= b then a - b else 0
  {
    if a >= b then a - b else 0
  }

  predicate IsDescending(sorting: Option<Sorting>) {
    sorting.Some? && sorting.value.direction.Descending?
  }

  /** The `Total` row followed by the sorted rows. */
  function WithTotal(sorted: seq<Entry>, total: Snapshot): seq<Entry> {
    [Entry(TOTAL_ROW, total)] + sorted
  }

  /** The rows `skip .. skip + limit` of `all`, cut short at its end. */
  function Slice(all: seq<Entry>, skip: nat, limit: nat): (r: seq<Entry>)
    requires skip <= |all|
    ensures |r| == Min(|all| - skip, limit)
    ensures forall i :: 0 <= i < |r| ==> r[i] == all[skip + i]
  {
    var rest := all[skip..];
    rest[..Min(|rest|, limit)]
  }

  /**
   * The skip as written: `rows.len().saturating_sub(limit)` for a descending sort,
   * taken before `Total` is inserted, so over one row fewer than are then sliced.
   */
  function SkipAsWritten(n: nat, sorting: Option<Sorting>, limit: nat): nat {
    if IsDescending(sorting) then SaturatingSub(n, limit) else 0
  }

  /** The rows shown by `print_results` as written. */
  function WindowAsWritten(sorted: seq<Entry>, total: Snapshot, sorting: Option<Sorting>, limit: nat): seq<Entry> {
    Slice(WithTotal(sorted, total), SkipAsWritten(|sorted|, sorting, limit), limit)
  }

  /**
   * As written, a descending sort with a limit no larger than the number of rows
   * shows the `limit` rows that end one before the last: the last row shown is
   * the next-to-last of `Total` and the sorted rows, so the last sorted row, the
   * largest, is never shown.
   */
  lemma WindowAsWrittenDropsLast(sorted: seq<Entry>, total: Snapshot, sorting: Option<Sorting>, limit: nat)
    requires IsDescending(sorting) && 0 < limit <= |sorted|
    ensures WindowAsWritten(sorted, total, sorting, limit) == WithTotal(sorted, total)[|sorted| - limit .. |sorted|]
    ensures WindowAsWritten(sorted, total, sorting, limit)[limit - 1] == WithTotal(sorted, total)[|sorted| - 1]
    ensures Window(sorted, total, sorting, limit)[limit - 1] == sorted[|sorted| - 1]
  {
    var all := WithTotal(sorted, total);
    assert SkipAsWritten(|sorted|, sorting, limit) == |sorted| - limit;
    var written := WindowAsWritten(sorted, total, sorting, limit);
    assert |written| == limit;
    assert written == all[|sorted| - limit .. |sorted|];
    assert Skip(|sorted|, sorting, limit) == |sorted| + 1 - limit;
    var corrected := Window(sorted, total, sorting, limit);
    assert corrected[limit - 1] == all[|sorted|];
  }

  /**
   * The as-written window holds at most `limit` rows starting at the skip: the
   * first rows of `Total` and the sorted rows unless the sort is descending and
   * `limit` is below the number of sorted rows, and then the `limit` rows that
   * end just before the last sorted row.
   */
  lemma WindowAsWrittenShape(sorted: seq<Entry>, total: Snapshot, sorting: Option<Sorting>, limit: nat)
    ensures
      var all := WithTotal(sorted, total);
      var w := WindowAsWritten(sorted, total, sorting, limit);
      && |w| == Min(|all| - SkipAsWritten(|sorted|, sorting, limit), limit)
      && (!IsDescending(sorting) || limit >= |sorted| ==> w == all[..|w|])
      && (IsDescending(sorting) && limit < |sorted| ==> w == all[|sorted| - limit .. |sorted|])
  {
    var all := WithTotal(sorted, total);
    var w := WindowAsWritten(sorted, total, sorting, limit);
    if IsDescending(sorting) && limit < |sorted| {
      assert w == all[|sorted| - limit .. |sorted|];
    } else {
      assert w == all[..|w|];
    }
  }

  /** The corrected skip: counted over the rows with `Total`, it leaves exactly the last `limit` of them. */
  function Skip(n: nat, sorting: Option<Sorting>, limit: nat): nat {
    if IsDescending(sorting) then SaturatingSub(n + 1, limit) else 0
  }

  /** The rows shown: a descending sort shows the last `limit` rows, any other the first `limit`. */
  function Window(sorted: seq<Entry>, total: Snapshot, sorting: Option<Sorting>, limit: nat): seq<Entry> {
    Slice(WithTotal(sorted, total), Skip(|sorted|, sorting, limit), limit)
  }

  /**
   * The corrected window holds `min(n + 1, limit)` rows: the last ones of `Total`
   * and the sorted rows for a descending sort, the first ones otherwise; `Total`
   * is among them exactly when nothing is skipped.
   */
  lemma WindowShape(sorted: seq<Entry>, total: Snapshot, sorting: Option<Sorting>, limit: nat)
    ensures
      var all := WithTotal(sorted, total);
      var w := Window(sorted, total, sorting, limit);
      && |w| == Min(|all|, limit)
      && (IsDescending(sorting) ==> w == all[|all| - |w|..])
      && (!IsDescending(sorting) ==> w == all[..|w|])
      && w == all[Skip(|sorted|, sorting, limit)..][..|w|]
      && (Skip(|sorted|, sorting, limit) == 0 <==> !IsDescending(sorting) || limit >= |all|)
  {
    var all := WithTotal(sorted, total);
    var w := Window(sorted, total, sorting, limit);
    if IsDescending(sorting) {
      assert w == all[|all| - |w|..];
    } else {
      assert w == all[..|w|];
    }
  }

  // ---------------------------------------------------------------------------
  // Plain text

  /** The widest name column: longer names are cut to fit. */
  const MAX_WIDTH: nat := 100

  /** The counters a report prints hold `u32` values. */
  predicate Fits(s: Snapshot) {
    && s.total <= U32_MAX && s.memRead <= U32_MAX && s.memWrite <= U32_MAX
    && s.stackRead <= U32_MAX && s.stackWrite <= U32_MAX && s.call <= U32_MAX
  }

  /** The displayed name: one longer than `MAX_WIDTH` becomes its first 97 characters and `...`. */
  function ShownName(name: string): (r: string)
    ensures |r| == Min(|name|, MAX_WIDTH)
  {
    if |name| > MAX_WIDTH then name[..MAX_WIDTH - 3] + "..." else name
  }

  /** The length of the longest name, by the same scan as the `for` loop. */
  function MaxNameLength(rows: seq<Entry>): (r: nat)
    ensures forall i :: 0 <= i < |rows| ==> |rows[i].symbolName| <= r
    ensures |rows| == 0 ==> r == 0
    ensures |rows| > 0 ==> exists i :: 0 <= i < |rows| && |rows[i].symbolName| == r
  {
    if |rows| == 0 then 0
    else
      var m := MaxNameLength(rows[..|rows| - 1]);
      var n := |rows[|rows| - 1].symbolName|;
      if m >= n then m else n
  }

  /** `max_name_width`: the longest name, but at most `MAX_WIDTH`. */
  function NameWidth(rows: seq<Entry>): nat {
    Min(MaxNameLength(rows), MAX_WIDTH)
  }

  function Spaces(n: nat): (r: string)
    ensures |r| == n && forall i :: 0 <= i < n ==> r[i] == ' '
  {
    seq(n, _ => ' ')
  }

  /** The name column: the displayed name filled with spaces to `width`. */
  function NameColumn(name: string, width: nat): string
    requires |ShownName(name)| <= width
  {
    ShownName(name) + Spaces(width - |ShownName(name)|)
  }

  /** `count_with_seperator` on a counter. */
  function Count(v: nat): string {
    Grouped(v, NON_BREAKING_SPACE)
  }

  /** The counters after the name column. */
  function PlainCounts(s: Snapshot, breakdown: bool): string {
    " total: " + Count(s.total) + if breakdown then PlainBreakdown(s) else ""
  }

  /** The fixed per-kind counters of `--breakdown`. */
  function PlainBreakdown(s: Snapshot): string {
    " mem_read: " + Count(s.memRead) + ", mem_write: " + Count(s.memWrite)
    + ", stack_read: " + Count(s.stackRead) + ", stack_write: " + Count(s.stackWrite)
    + ", call " + Count(s.call)
  }

  function PlainLine(row: Entry, width: nat, breakdown: bool): string
    requires |ShownName(row.symbolName)| <= width
  {
    NameColumn(row.symbolName, width) + PlainCounts(row.statistics, breakdown)
  }

  /** Every name fits the column width of its report. */
  lemma NameFits(rows: seq<Entry>, i: nat)
    requires i < |rows|
    ensures |ShownName(rows[i].symbolName)| <= NameWidth(rows)
  {
  }

  /** The plain report: one line per row, all with the same name column width. */
  function PlainOutput(rows: seq<Entry>, breakdown: bool): (r: seq<string>)
    ensures |r| == |rows|
  {
    seq(|rows|, i requires 0 <= i < |rows| => NameFits(rows, i); PlainLine(rows[i], NameWidth(rows), breakdown))
  }

  /**
   * The name column of every line is exactly `min(longest name, 100)` characters
   * wide and is followed by ` total: `; a name longer than 100 characters is shown
   * as its first 97 characters and `...`, a shorter one unchanged.
   */
  lemma PlainLayout(rows: seq<Entry>, breakdown: bool, i: nat)
    requires i < |rows|
    ensures
      var w := NameWidth(rows);
      var line := PlainOutput(rows, breakdown)[i];
      var name := rows[i].symbolName;
      && w == Min(MaxNameLength(rows), MAX_WIDTH)
      && w <= |line| && line[..w] == NameColumn(name, w) && line[w..] == PlainCounts(rows[i].statistics, breakdown)
      && (|name| > MAX_WIDTH ==> line[..w] == name[..97] + "...")
      && (|name| <= MAX_WIDTH ==> line[..|name|] == name && forall k :: |name| <= k < w ==> line[k] == ' ')
  {
    var w := NameWidth(rows);
    var name := rows[i].symbolName;
    NameFits(rows, i);
    var line := PlainOutput(rows, breakdown)[i];
    assert line == NameColumn(name, w) + PlainCounts(rows[i].statistics, breakdown);
    if |name| > MAX_WIDTH {
      assert MaxNameLength(rows) >= |name|;
      assert w == MAX_WIDTH;
    }
  }

  /** The `max_name_width` loop. */
  method MaxNameWidth(rows: seq<Entry>) returns (width: nat)
    ensures width == NameWidth(rows)
  {
    var longest := 0;
    for i := 0 to |rows|
      invariant longest == MaxNameLength(rows[..i])
    {
      assert rows[..i + 1][..i] == rows[..i];
      var n := |rows[i].symbolName|;
      if n > longest {
        longest := n;
      }
    }
    assert rows[..|rows|] == rows;
    width := Min(longest, MAX_WIDTH);
  }

  /** `count_with_seperator(v as usize)` on a `u32` counter, which never reaches the panic in `to_denary`. */
  method WriteCount(v: nat) returns (text: string)
    requires v <= U32_MAX
    ensures text == Count(v)
  {
    U32CountsRender(v);
    var r := CountWithSeparator(v);
    text := r.value;
  }

  /** One row of the plain report, written piece by piece. */
  method WritePlainRow(row: Entry, width: nat, breakdown: bool) returns (line: string)
    requires Fits(row.statistics) && |ShownName(row.symbolName)| <= width
    ensures line == PlainLine(row, width, breakdown)
  {
    var name := row.symbolName;
    var shown := name;
    if |name| > MAX_WIDTH {
      shown := name[..MAX_WIDTH - 3] + "...";
    }
    var fill := Spaces(width - |shown|);
    var total := WriteCount(row.statistics.total);
    var counts := " total: " + total;
    if breakdown {
      var kinds := WritePlainBreakdown(row.statistics);
      counts := counts + kinds;
    }
    line := shown + fill + counts;
  }

  /** The `--breakdown` part of a plain row. */
  method WritePlainBreakdown(s: Snapshot) returns (text: string)
    requires Fits(s)
    ensures text == PlainBreakdown(s)
  {
    var memRead := WriteCount(s.memRead);
    var memWrite := WriteCount(s.memWrite);
    var stackRead := WriteCount(s.stackRead);
    var stackWrite := WriteCount(s.stackWrite);
    var call := WriteCount(s.call);
    text := " mem_read: " + memRead + ", mem_write: " + memWrite
      + ", stack_read: " + stackRead + ", stack_write: " + stackWrite + ", call " + call;
  }

  /** The plain-text arm: the width loop, then one line per row. */
  method WritePlain(rows: seq<Entry>, breakdown: bool) returns (lines: seq<string>)
    requires forall i :: 0 <= i < |rows| ==> Fits(rows[i].statistics)
    ensures lines == PlainOutput(rows, breakdown)
  {
    var width := MaxNameWidth(rows);
    lines := [];
    for i := 0 to |rows|
      invariant lines == PlainOutput(rows, breakdown)[..i]
    {
      NameFits(rows, i);
      var line := WritePlainRow(rows[i], width, breakdown);
      ghost var all := PlainOutput(rows, breakdown);
      assert all[i] == line;
      assert all[..i + 1] == all[..i] + [line];
      lines := lines + [line];
    }
    assert lines == PlainOutput(rows, breakdown)[..|rows|];
  }

  // ---------------------------------------------------------------------------
  // Tables: CSV and Markdown

  /** `c` splits `a + [c] + b` after `a` when `a` is free of it. */
  lemma SplitAfter(a: string, c: char, b: string)
    requires c !in a
    ensures Split(a + [c] + b, c) == [a] + Split(b, c)
  {
    SplitOnceAt(a, c, b);
  }

  /** A text free of `c` is a single piece. */
  lemma SplitNone(a: string, c: char)
    requires c !in a
    ensures Split(a, c) == [a]
  {
  }

  /** Cells free of `c` and a separator free of it leave a join free of it. */
  lemma {:induction false} JoinFree(cells: seq<string>, separator: string, c: char)
    requires c !in separator && forall i :: 0 <= i < |cells| ==> c !in cells[i]
    ensures c !in Join(cells, separator)
    decreases |cells|
  {
    if |cells| > 1 {
      JoinFree(cells[1..], separator, c);
    }
  }

  /** A non-empty sequence with one more element at its end, taken apart at its head. */
  lemma Uncons<T>(s: seq<T>, x: T)
    requires |s| > 0
    ensures s + [x] == [s[0]] + (s[1..] + [x])
  {
  }

  lemma Associative<T>(a: seq<T>, b: seq<T>, c: seq<T>)
    ensures a + (b + c) == a + b + c
  {
  }

  lemma Cons<T>(s: seq<T>)
    requires |s| > 0
    ensures s == [s[0]] + s[1..]
  {
  }

  /** Cells free of the separator come back out of their join. */
  lemma {:induction false} SplitJoin(cells: seq<string>, c: char)
    requires |cells| > 0 && forall i :: 0 <= i < |cells| ==> c !in cells[i]
    ensures Split(Join(cells, [c]), c) == cells
    decreases |cells|
  {
    if |cells| == 1 {
      SplitNone(cells[0], c);
    } else {
      var tail := Join(cells[1..], [c]);
      SplitJoin(cells[1..], c);
      assert Join(cells, [c]) == cells[0] + [c] + tail;
      SplitAfter(cells[0], c, tail);
      Cons(cells);
    }
  }

  /** A join closed by one more separator splits into the cells and an empty piece. */
  lemma {:induction false} SplitJoinClosed(cells: seq<string>, c: char)
    requires |cells| > 0 && forall i :: 0 <= i < |cells| ==> c !in cells[i]
    ensures Split(Join(cells, [c]) + [c], c) == cells + [""]
    decreases |cells|
  {
    if |cells| == 1 {
      assert Join(cells, [c]) + [c] == cells[0] + [c] + [];
      SplitAfter(cells[0], c, []);
      SplitNone([], c);
    } else {
      var tail := Join(cells[1..], [c]);
      SplitJoinClosed(cells[1..], c);
      assert Join(cells, [c]) + [c] == cells[0] + [c] + (tail + [c]);
      SplitAfter(cells[0], c, tail + [c]);
      Uncons(cells, "");
    }
  }

  /** A line of a `|`-delimited table: `|cell|cell|...|`. */
  function TableRow(cells: seq<string>): string {
    "|" + Join(cells, "|") + "|"
  }

  /** A table line splits at `|` into an empty piece, its cells and another empty piece. */
  lemma TableRowCells(cells: seq<string>)
    requires |cells| > 0 && forall i :: 0 <= i < |cells| ==> '|' !in cells[i]
    ensures Split(TableRow(cells), '|') == [""] + cells + [""]
  {
    var closed := Join(cells, "|") + "|";
    assert TableRow(cells) == [] + ['|'] + closed;
    SplitAfter([], '|', closed);
    SplitJoinClosed(cells, '|');
    Associative([""], cells, [""]);
  }

  /** A decimal numeral holds only digits. */
  lemma DecFree(v: nat, c: char)
    requires !IsDigit(c)
    ensures c !in Dec(v)
  {
    DecIsNumeral(v);
  }

  /** The names of the fixed counters in a `--breakdown` table, after the name and count columns. */
  const BREAKDOWN_COLUMNS: seq<string> := ["mem_read", "mem_write", "stack_read", "stack_write", "call"]

  /** The `{total}` cells: the counters in plain decimal, `Display` for `u32`. */
  function CountCells(s: Snapshot, breakdown: bool): seq<string> {
    [Dec(s.total)]
    + if breakdown then [Dec(s.memRead), Dec(s.memWrite), Dec(s.stackRead), Dec(s.stackWrite), Dec(s.call)] else []
  }

  /** The name cell of a table row: the symbol in backticks. */
  function NameCell(row: Entry): string {
    "`" + row.symbolName + "`"
  }

  /** The column headings, `symbol name` and `count` and with `--breakdown` the five counters. */
  function Headings(breakdown: bool): seq<string> {
    ["symbol name", "count"] + if breakdown then BREAKDOWN_COLUMNS else []
  }

  /** The cells of a data row, one per heading. */
  function RowCells(row: Entry, breakdown: bool): (r: seq<string>)
    ensures |r| == |Headings(breakdown)|
  {
    [NameCell(row)] + CountCells(row.statistics, breakdown)
  }

  /** Letters, spaces and underscores: what the headings are made of. */
  predicate Wordy(s: string) {
    forall i :: 0 <= i < |s| ==> 'a' <= s[i] <= 'z' || s[i] == ' ' || s[i] == '_'
  }

  /** No heading holds a `|` or a `,`. */
  lemma HeadingsFree(breakdown: bool, c: char)
    requires c == '|' || c == ','
    ensures forall i :: 0 <= i < |Headings(breakdown)| ==> c !in Headings(breakdown)[i]
  {
    var h := Headings(breakdown);
    assert forall i :: 0 <= i < |h| ==> Wordy(h[i]);
  }

  /** No cell of a row holds the separator `c` when the name does not. */
  lemma RowCellsFree(row: Entry, breakdown: bool, c: char)
    requires c == '|' || c == ','
    requires c !in row.symbolName
    ensures forall i :: 0 <= i < |RowCells(row, breakdown)| ==> c !in RowCells(row, breakdown)[i]
  {
    var s := row.statistics;
    DecFree(s.total, c);
    DecFree(s.memRead, c);
    DecFree(s.memWrite, c);
    DecFree(s.stackRead, c);
    DecFree(s.stackWrite, c);
    DecFree(s.call, c);
    assert NameCell(row) == ['`'] + row.symbolName + ['`'];
  }

  // CSV

  /** The CSV heading line, `symbol name,count[,...]`. */
  function CsvHeader(breakdown: bool): string {
    Join(Headings(breakdown), ",")
  }

  /**
   * A CSV data row as written: with `--breakdown` the comma-separated cells, and
   * without it the Markdown row `|`name`|total|`.
   */
  function CsvRowAsWritten(row: Entry, breakdown: bool): string {
    if breakdown then Join(RowCells(row, breakdown), ",") else TableRow(RowCells(row, breakdown))
  }

  /**
   * As written, a plain CSV row has one field where its heading line has two:
   * for a name without commas, the row `|`name`|total|` holds no comma at all.
   */
  lemma CsvRowAsWrittenOneField(row: Entry)
    requires ',' !in row.symbolName
    ensures |Split(CsvHeader(false), ',')| == 2
    ensures Split(CsvRowAsWritten(row, false), ',') == [CsvRowAsWritten(row, false)]
  {
    HeadingsFree(false, ',');
    RowCellsFree(row, false, ',');
    SplitJoin(Headings(false), ',');
    JoinFree(RowCells(row, false), "|", ',');
    SplitNone(CsvRowAsWritten(row, false), ',');
  }

  /** A CSV data row: the row's cells separated by commas, as with `--breakdown`. */
  function CsvRow(row: Entry, breakdown: bool): string {
    Join(RowCells(row, breakdown), ",")
  }

  /** Every corrected CSV row splits into one field per heading, and the fields are the cells. */
  lemma CsvRowFields(row: Entry, breakdown: bool)
    requires ',' !in row.symbolName
    ensures Split(CsvHeader(breakdown), ',') == Headings(breakdown)
    ensures Split(CsvRow(row, breakdown), ',') == RowCells(row, breakdown)
    ensures |Split(CsvRow(row, breakdown), ',')| == |Split(CsvHeader(breakdown), ',')|
  {
    HeadingsFree(breakdown, ',');
    RowCellsFree(row, breakdown, ',');
    SplitJoin(Headings(breakdown), ',');
    SplitJoin(RowCells(row, breakdown), ',');
  }

  /** The CSV output as written: the heading line, then one as-written row per shown row. */
  function CsvOutput(rows: seq<Entry>, breakdown: bool): (r: seq<string>)
    ensures |r| == |rows| + 1
  {
    [CsvHeader(breakdown)] + seq(|rows|, i requires 0 <= i < |rows| => CsvRowAsWritten(rows[i], breakdown))
  }

  /**
   * What the CSV lines hold: the heading line's fields are the headings; a data
   * line with `--breakdown` has the row's cells as its fields, and without it
   * has them as the cells of a `|`-delimited line.
   */
  lemma CsvOutputCells(rows: seq<Entry>, breakdown: bool, i: nat)
    requires i < |rows|
    requires breakdown ==> ',' !in rows[i].symbolName
    requires !breakdown ==> '|' !in rows[i].symbolName
    ensures Split(CsvOutput(rows, breakdown)[0], ',') == Headings(breakdown)
    ensures breakdown ==> Split(CsvOutput(rows, breakdown)[i + 1], ',') == RowCells(rows[i], breakdown)
    ensures !breakdown ==> Split(CsvOutput(rows, breakdown)[i + 1], '|') == [""] + RowCells(rows[i], breakdown) + [""]
  {
    var row := rows[i];
    assert CsvOutput(rows, breakdown)[i + 1] == CsvRowAsWritten(row, breakdown);
    HeadingsFree(breakdown, ',');
    SplitJoin(Headings(breakdown), ',');
    if breakdown {
      RowCellsFree(row, breakdown, ',');
      SplitJoin(RowCells(row, breakdown), ',');
    } else {
      RowCellsFree(row, breakdown, '|');
      TableRowCells(RowCells(row, breakdown));
    }
  }

  // Markdown

  /** The Markdown heading line as written: with `--breakdown` it ends in an `other` heading. */
  function MarkdownHeaderAsWritten(breakdown: bool): string {
    TableRow(Headings(breakdown) + if breakdown then ["other"] else [])
  }

  /** The delimiter line, one `---` per column. */
  function Delimiter(breakdown: bool): string {
    TableRow(seq(|Headings(breakdown)|, _ => "---"))
  }

  function MarkdownRow(row: Entry, breakdown: bool): string {
    TableRow(RowCells(row, breakdown))
  }

  /**
   * As written, the `--breakdown` Markdown heading has eight cells while the
   * delimiter line and every data row have seven, so the lines do not form a table.
   */
  lemma MarkdownHeaderAsWrittenMismatch(row: Entry)
    requires '|' !in row.symbolName
    ensures |Split(MarkdownHeaderAsWritten(true), '|')| == 10
    ensures |Split(Delimiter(true), '|')| == 9
    ensures |Split(MarkdownRow(row, true), '|')| == 9
  {
    HeadingsFree(true, '|');
    RowCellsFree(row, true, '|');
    assert Wordy("other");
    TableRowCells(Headings(true) + ["other"]);
    TableRowCells(seq(7, _ => "---"));
    TableRowCells(RowCells(row, true));
  }

  /** The Markdown heading line, one cell per column. */
  function MarkdownHeader(breakdown: bool): string {
    TableRow(Headings(breakdown))
  }

  /** Heading, delimiter and every data row have the same cells count, the headings' count. */
  lemma MarkdownColumns(row: Entry, breakdown: bool)
    requires '|' !in row.symbolName
    ensures Split(MarkdownHeader(breakdown), '|') == [""] + Headings(breakdown) + [""]
    ensures |Split(Delimiter(breakdown), '|')| == |Headings(breakdown)| + 2
    ensures Split(MarkdownRow(row, breakdown), '|') == [""] + RowCells(row, breakdown) + [""]
  {
    HeadingsFree(breakdown, '|');
    RowCellsFree(row, breakdown, '|');
    TableRowCells(Headings(breakdown));
    TableRowCells(seq(|Headings(breakdown)|, _ => "---"));
    TableRowCells(RowCells(row, breakdown));
  }

  /** The Markdown output as written: the as-written heading, the delimiter, then one line per shown row. */
  function MarkdownOutput(rows: seq<Entry>, breakdown: bool): (r: seq<string>)
    ensures |r| == |rows| + 2
  {
    [MarkdownHeaderAsWritten(breakdown), Delimiter(breakdown)]
    + seq(|rows|, i requires 0 <= i < |rows| => MarkdownRow(rows[i], breakdown))
  }

  /**
   * What the Markdown lines hold: the heading's cells are the headings and, with
   * `--breakdown`, `other`; the delimiter has one cell per heading; each data
   * line's cells are the row's cells.
   */
  lemma MarkdownOutputCells(rows: seq<Entry>, breakdown: bool, i: nat)
    requires i < |rows| && '|' !in rows[i].symbolName
    ensures Split(MarkdownOutput(rows, breakdown)[0], '|') == [""] + Headings(breakdown) + (if breakdown then ["other"] else []) + [""]
    ensures |Split(MarkdownOutput(rows, breakdown)[1], '|')| == |Headings(breakdown)| + 2
    ensures Split(MarkdownOutput(rows, breakdown)[i + 2], '|') == [""] + RowCells(rows[i], breakdown) + [""]
  {
    var out := MarkdownOutput(rows, breakdown);
    assert out[0] == MarkdownHeaderAsWritten(breakdown) && out[1] == Delimiter(breakdown);
    assert out[i + 2] == MarkdownRow(rows[i], breakdown);
    MarkdownHeaderAsWrittenCells(breakdown);
    MarkdownColumns(rows[i], breakdown);
  }

  /** The as-written heading's cells: the headings, then `other` with `--breakdown`. */
  lemma MarkdownHeaderAsWrittenCells(breakdown: bool)
    ensures Split(MarkdownHeaderAsWritten(breakdown), '|') == [""] + Headings(breakdown) + (if breakdown then ["other"] else []) + [""]
  {
    HeadingsFree(breakdown, '|');
    if breakdown {
      var heads := Headings(true) + ["other"];
      assert Wordy("other");
      assert MarkdownHeaderAsWritten(true) == TableRow(heads);
      TableRowCells(heads);
    } else {
      assert Headings(false) + [] == Headings(false);
      assert MarkdownHeaderAsWritten(false) == TableRow(Headings(false));
      TableRowCells(Headings(false));
      assert [""] + Headings(false) + [] + [""] == [""] + Headings(false) + [""];
    }
  }

  // CSV and Markdown writers

  /** The CSV arm: the heading line, then one line per row. */
  method WriteCsv(rows: seq<Entry>, breakdown: bool) returns (lines: seq<string>)
    ensures lines == CsvOutput(rows, breakdown)
  {
    ghost var all := CsvOutput(rows, breakdown);
    lines := [CsvHeader(breakdown)];
    for i := 0 to |rows|
      invariant |lines| == i + 1
      invariant forall j :: 0 <= j < |lines| ==> lines[j] == all[j]
    {
      var line := CsvRowAsWritten(rows[i], breakdown);
      assert all[i + 1] == line;
      lines := lines + [line];
    }
  }

  /** The Markdown arm: the heading and delimiter lines, then one line per row. */
  method WriteMarkdown(rows: seq<Entry>, breakdown: bool) returns (lines: seq<string>)
    ensures lines == MarkdownOutput(rows, breakdown)
  {
    ghost var all := MarkdownOutput(rows, breakdown);
    lines := [MarkdownHeaderAsWritten(breakdown), Delimiter(breakdown)];
    for i := 0 to |rows|
      invariant |lines| == i + 2
      invariant forall j :: 0 <= j < |lines| ==> lines[j] == all[j]
    {
      var line := MarkdownRow(rows[i], breakdown);
      assert all[i + 2] == line;
      lines := lines + [line];
    }
  }

  // ---------------------------------------------------------------------------
  // JSON

  /** The values the JSON objects carry: the name, a counter, or the map of other kinds. */
  datatype JsonValue = JsonText(text: string) | JsonNumber(number: nat) | JsonCounts(counts: map<string, nat>)

  /**
   * The members of a row's object, in order: `symbol_name` and `total`, and with
   * `--breakdown` the five counters and the other kinds under `kinds`.
   */
  function JsonFields(row: Entry, breakdown: bool): seq<(string, JsonValue)> {
    var s := row.statistics;
    [("symbol_name", JsonText(row.symbolName)), ("total", JsonNumber(s.total))]
    + if breakdown then
        [("mem_read", JsonNumber(s.memRead)), ("mem_write", JsonNumber(s.memWrite)),
         ("stack_read", JsonNumber(s.stackRead)), ("stack_write", JsonNumber(s.stackWrite)),
         ("call", JsonNumber(s.call)), ("kinds", JsonCounts(s.others))]
      else []
  }

  /** The value of the first member named `name`. */
  function Lookup(fields: seq<(string, JsonValue)>, name: string): (r: Option<JsonValue>)
    ensures r.None? <==> forall i :: 0 <= i < |fields| ==> fields[i].0 != name
    ensures r.Some? ==> exists i :: 0 <= i < |fields| && fields[i] == (name, r.value)
  {
    if |fields| == 0 then None
    else if fields[0].0 == name then Some(fields[0].1)
    else
      var r := Lookup(fields[1..], name);
      assert r.Some? ==> exists i :: 0 <= i < |fields| - 1 && fields[1..][i] == (name, r.value);
      r
  }

  /**
   * A row's object gives back its name and total, and its breakdown counters and
   * other kinds exactly when `--breakdown` is set.
   */
  lemma JsonFieldsCarry(row: Entry, breakdown: bool)
    ensures Lookup(JsonFields(row, breakdown), "symbol_name") == Some(JsonText(row.symbolName))
    ensures Lookup(JsonFields(row, breakdown), "total") == Some(JsonNumber(row.statistics.total))
    ensures breakdown ==> Lookup(JsonFields(row, breakdown), "call") == Some(JsonNumber(row.statistics.call))
    ensures breakdown ==> Lookup(JsonFields(row, breakdown), "kinds") == Some(JsonCounts(row.statistics.others))
    ensures !breakdown <==> Lookup(JsonFields(row, breakdown), "mem_read").None?
  {
    var f := JsonFields(row, breakdown);
    assert f[0].0 == "symbol_name" && f[1].0 == "total";
    if breakdown {
      assert f[2] == ("mem_read", JsonNumber(row.statistics.memRead));
      assert f[6] == ("call", JsonNumber(row.statistics.call));
      assert f[7] == ("kinds", JsonCounts(row.statistics.others));
    } else {
      assert |f| == 2;
    }
  }

  /**
   * One object as the JSON macro writes it: `{`, the members each rendered by
   * `member` and separated by commas, `}`. How a member is quoted lies outside
   * this model.
   */
  function JsonObject(fields: seq<(string, JsonValue)>, member: ((string, JsonValue)) -> string): (r: string)
    ensures |r| >= 2 && r[0] == '{' && r[|r| - 1] == '}'
  {
    "{" + Join(seq(|fields|, i requires 0 <= i < |fields| => member(fields[i])), ",") + "}"
  }

  /** `[`, the objects separated by commas, `]`. */
  function JsonArray(objects: seq<string>): (r: string)
    ensures |r| >= 2 && r[0] == '[' && r[|r| - 1] == ']'
  {
    "[" + Join(objects, ",") + "]"
  }

  function JsonOutput(rows: seq<Entry>, breakdown: bool, member: ((string, JsonValue)) -> string): string {
    JsonArray(seq(|rows|, i requires 0 <= i < |rows| => JsonObject(JsonFields(rows[i], breakdown), member)))
  }

  /** One more part at the end of a join: after a separator, unless it is the first. */
  lemma JoinSnoc(parts: seq<string>, x: string, separator: string)
    ensures Join(parts + [x], separator) == if |parts| == 0 then x else Join(parts, separator) + separator + x
    decreases |parts|
  {
    if |parts| > 1 {
      JoinSnoc(parts[1..], x, separator);
      assert (parts + [x])[1..] == parts[1..] + [x];
    } else if |parts| == 1 {
      assert parts + [x] == [parts[0], x];
    }
  }

  /**
   * The JSON arm: a buffer opened with `[`, a comma before every object but the
   * first (the buffer is then longer than the bracket), and `]` at the end.
   */
  method WriteJson(rows: seq<Entry>, breakdown: bool, member: ((string, JsonValue)) -> string) returns (buf: string)
    ensures buf == JsonOutput(rows, breakdown, member)
  {
    ghost var objects := seq(|rows|, i requires 0 <= i < |rows| => JsonObject(JsonFields(rows[i], breakdown), member));
    buf := "[";
    for i := 0 to |rows|
      invariant buf == "[" + Join(objects[..i], ",")
      invariant i > 0 ==> |buf| > 1
    {
      var next := JsonObject(JsonFields(rows[i], breakdown), member);
      assert objects[i] == next;
      assert objects[..i + 1] == objects[..i] + [objects[i]];
      buf := PushObject(buf, objects[..i], next);
    }
    assert objects[..|rows|] == objects;
    buf := buf + "]";
  }

  /** One turn of the JSON loop: a comma when the buffer already holds an object, then the object. */
  method PushObject(buf: string, ghost pushed: seq<string>, next: string) returns (r: string)
    requires buf == "[" + Join(pushed, ",")
    requires |pushed| > 0 ==> |buf| > 1
    requires |next| > 0
    ensures r == "[" + Join(pushed + [next], ",")
    ensures |r| > 1
  {
    JoinSnoc(pushed, next, ",");
    r := buf;
    if |r| > 1 {
      r := r + ",";
    }
    r := r + next;
  }

  // ---------------------------------------------------------------------------
  // print_results

  /** The line written for a sort field other than `name` and `total`: the field in quotes. */
  function UnknownField(field: string): string {
    "error: unknown field \"" + field + "\""
  }

  /** The key a sorting sorts by, when its field is one `print_results` knows. */
  function SortKeyOf(sorting: Option<Sorting>): Option<SortKey> {
    if sorting.Some? then KeyOf(sorting.value.field) else None
  }

  /** What the sort step writes: the error line for an unknown field, otherwise nothing. */
  function SortMessage(sorting: Option<Sorting>): (r: seq<string>)
    ensures |r| <= 1
    ensures |r| == 1 <==> sorting.Some? && sorting.value.field != "name" && sorting.value.field != "total"
  {
    if sorting.Some? && KeyOf(sorting.value.field).None? then [UnknownField(sorting.value.field)] else []
  }

  /** The lines one output format writes for the shown rows; JSON is a single unterminated text. */
  function Render(format: OutputFormat, shown: seq<Entry>, breakdown: bool, member: ((string, JsonValue)) -> string): seq<string> {
    match format
    case Plain => PlainOutput(shown, breakdown)
    case Json => [JsonOutput(shown, breakdown, member)]
    case Csv => CsvOutput(shown, breakdown)
    case Markdown => MarkdownOutput(shown, breakdown)
  }

  /** The number of lines each format writes: one per row, after one heading line for CSV and two for Markdown. */
  lemma RenderLength(format: OutputFormat, shown: seq<Entry>, breakdown: bool, member: ((string, JsonValue)) -> string)
    ensures |Render(format, shown, breakdown, member)| ==
      match format
      case Plain => |shown|
      case Json => 1
      case Csv => |shown| + 1
      case Markdown => |shown| + 2
  {
  }

  /** A permutation of rows that fit in `u32` fits as well. */
  lemma PermutationFits(rows: seq<Entry>, ordered: seq<Entry>)
    requires forall i :: 0 <= i < |rows| ==> Fits(rows[i].statistics)
    requires multiset(ordered) == multiset(rows)
    ensures forall i :: 0 <= i < |ordered| ==> Fits(ordered[i].statistics)
  {
    forall i | 0 <= i < |ordered|
      ensures Fits(ordered[i].statistics)
    {
      assert ordered[i] in multiset(rows);
      var j :| 0 <= j < |rows| && rows[j] == ordered[i];
    }
  }

  /**
   * `print_results`: sort the rows by a known key (or write the error line and keep
   * their order), take the window of `Total` and the sorted rows, and render it in
   * the chosen format. A sort by an unknown field still windows and renders.
   */
  method PrintResults(rows: seq<Entry>, total: Snapshot, format: OutputFormat, sorting: Option<Sorting>,
                      limit: nat, breakdown: bool, member: ((string, JsonValue)) -> string)
    returns (lines: seq<string>, ghost sorted: seq<Entry>)
    requires forall i :: 0 <= i < |rows| ==> Fits(rows[i].statistics)
    requires Fits(total)
    ensures multiset(sorted) == multiset(rows)
    ensures SortKeyOf(sorting).Some? ==> SortedBy(SortKeyOf(sorting).value, sorting.value.direction, sorted)
    ensures SortKeyOf(sorting).None? ==> sorted == rows
    ensures lines == SortMessage(sorting) + Render(format, WindowAsWritten(sorted, total, sorting, limit), breakdown, member)
  {
    var ordered := rows;
    lines := [];
    if sorting.Some? {
      var key := KeyOf(sorting.value.field);
      if key.Some? {
        var a := new Entry[|rows|](i requires 0 <= i < |rows| => rows[i]);
        assert a[..] == rows;
        SortRows(a, key.value, sorting.value.direction);
        ordered := a[..];
      } else {
        lines := [UnknownField(sorting.value.field)];
      }
    }
    sorted := ordered;
    PermutationFits(rows, ordered);

    var shown := TakeWindow(ordered, total, sorting, limit);
    var out := WriteFormat(format, shown, breakdown, member);
    lines := lines + out;
  }

  /** The window step: `Total` goes in front, then `skip` rows are dropped and at most `limit` kept. */
  method TakeWindow(ordered: seq<Entry>, total: Snapshot, sorting: Option<Sorting>, limit: nat)
    returns (shown: seq<Entry>)
    requires forall i :: 0 <= i < |ordered| ==> Fits(ordered[i].statistics)
    requires Fits(total)
    ensures shown == WindowAsWritten(ordered, total, sorting, limit)
    ensures forall i :: 0 <= i < |shown| ==> Fits(shown[i].statistics)
  {
    var skip := 0;
    if IsDescending(sorting) {
      skip := SaturatingSub(|ordered|, limit);
    }
    var all := [Entry(TOTAL_ROW, total)] + ordered;
    assert forall i :: 0 <= i < |all| ==> Fits(all[i].statistics);
    var rest := all[skip..];
    shown := rest[..Min(|rest|, limit)];
  }

  /** The `match output_format` step. */
  method WriteFormat(format: OutputFormat, shown: seq<Entry>, breakdown: bool, member: ((string, JsonValue)) -> string)
    returns (out: seq<string>)
    requires forall i :: 0 <= i < |shown| ==> Fits(shown[i].statistics)
    ensures out == Render(format, shown, breakdown, member)
  {
    match format {
      case Plain => out := WritePlain(shown, breakdown);
      case Json =>
        var text := WriteJson(shown, breakdown, member);
        out := [text];
      case Csv => out := WriteCsv(shown, breakdown);
      case Markdown => out := WriteMarkdown(shown, breakdown);
    }
  }
}
