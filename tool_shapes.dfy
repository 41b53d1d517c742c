/**
 * The record the two instrumentation back ends (`src/tools/qbdi.rs`, `src/tools/sde.rs`)
 * build for each symbol: a name, a total, and a list of labelled counts. This is the back
 * ends' own local shape, not the `Entry` of `src/lib.rs`.
 */
module ToolShapes {

  /** One symbol as a back end reports it. */
  datatype ToolEntry = ToolEntry(symbolName: string, total: nat, entries: seq<(string, nat)>)

  /** The sum of the counts of a label/count list. */
  function SumCounts(kinds: seq<(string, nat)>): nat {
    if |kinds| == 0 then 0 else SumCounts(kinds[..|kinds| - 1]) + kinds[|kinds| - 1].1
  }

  /** Appending one pair adds its count. */
  lemma SumCountsAppend(kinds: seq<(string, nat)>, pair: (string, nat))
    ensures SumCounts(kinds + [pair]) == SumCounts(kinds) + pair.1
  {
    assert (kinds + [pair])[..|kinds|] == kinds;
  }

  /** The sum of the totals of a list of entries, added left to right. */
  function SumTotals(symbols: seq<ToolEntry>): nat {
    if |symbols| == 0 then 0 else SumTotals(symbols[..|symbols| - 1]) + symbols[|symbols| - 1].total
  }
}
