/**
 * The instruction counter preloaded into the traced program (`qbdi/icount.c`): a fixed table of
 * 4096 buckets, each a chain of `(symbol, kind, count)` entries, indexed by an FNV-1a hash of
 * the pair; every instrumented instruction with a known symbol bumps the count of its pair, and
 * at exit one line per entry is printed.
 *
 * C strings are sequences of bytes without the terminating NUL; a byte is written as a
 * character below 256. The printed lines are what the Rust side reads only for ASCII names,
 * since it decodes the output as UTF-8.
 */
module Tracer {
  import opened Common
  import opened Text
  import Utilities
  import QbdiStream

  /** A byte of a C string. */
  type Byte = c: char | c as int < 256

  /** A NUL-terminated C string, without its terminator. */
  type CString = seq<Byte>

  const HASH_SIZE: nat := 4096
  const FNV_OFFSET: bv64 := 1469598103934665603
  const FNV_PRIME: bv64 := 1099511628211

  /** One round of the hash loop: `h = (h ^ c) * prime`, on 64-bit words (bytes taken as unsigned). */
  function Mix(h: bv64, c: Byte): bv64 {
    (h ^ (c as int as bv64)) * FNV_PRIME
  }

  /** The hash loop run over all of `s`, starting from `h`. */
  function Fnv(h: bv64, s: CString): bv64 {
    if |s| == 0 then h else Mix(Fnv(h, s[..|s| - 1]), s[|s| - 1])
  }

  /** The bucket of a pair: the hash of `a` continued over `b`, reduced modulo the table size. */
  function Bucket(a: CString, b: CString): nat {
    (Fnv(Fnv(FNV_OFFSET, a), b) as int) % HASH_SIZE
  }

  /** Hashing the two strings one after the other is the FNV-1a hash of their concatenation. */
  lemma {:induction false} FnvAppend(h: bv64, a: CString, b: CString)
    ensures Fnv(Fnv(h, a), b) == Fnv(h, a + b)
    decreases |b|
  {
    if |b| > 0 {
      var b' := b[..|b| - 1];
      FnvAppend(h, a, b');
      assert (a + b)[..|a + b| - 1] == a + b';
    } else {
      assert a + b == a;
    }
  }

  /** The bucket of a pair is the FNV-1a hash of the concatenated pair, modulo the table size. */
  lemma BucketOfConcatenation(a: CString, b: CString)
    ensures Bucket(a, b) == (Fnv(FNV_OFFSET, a + b) as int) % HASH_SIZE
    ensures Bucket(a, b) < HASH_SIZE
  {
    FnvAppend(FNV_OFFSET, a, b);
  }

  lemma FnvStep(h: bv64, s: CString, i: nat)
    requires i < |s|
    ensures Fnv(h, s[..i + 1]) == Mix(Fnv(h, s[..i]), s[i])
  {
    assert s[..i + 1][..i] == s[..i];
  }

  /** `hash_pair`: the two byte loops, then the reduction. */
  method HashPair(a: CString, b: CString) returns (r: nat)
    ensures r < HASH_SIZE
    ensures r == Bucket(a, b)
  {
    var h := FNV_OFFSET;
    for i := 0 to |a|
      invariant h == Fnv(FNV_OFFSET, a[..i])
    {
      FnvStep(FNV_OFFSET, a, i);
      h := Mix(h, a[i]);
    }
    assert a[..|a|] == a;
    ghost var ha := h;
    for i := 0 to |b|
      invariant h == Fnv(ha, b[..i])
    {
      FnvStep(ha, b, i);
      h := Mix(h, b[i]);
    }
    assert b[..|b|] == b;
    r := (h as int) % HASH_SIZE;
  }

  /** A table entry. The `next` link is the entry's position in its bucket's chain. */
  datatype TableEntry = TableEntry(symbol: CString, kind: CString, count: nat)

  /** Whether the entry is the one for the pair. */
  predicate Holds(e: TableEntry, symbol: CString, kind: CString) {
    e.symbol == symbol && e.kind == kind
  }

  /** The position of the pair's entry in a chain, walking from the head. */
  function Find(chain: seq<TableEntry>, symbol: CString, kind: CString): (r: Option<nat>)
    ensures r.None? <==> forall j :: 0 <= j < |chain| ==> !Holds(chain[j], symbol, kind)
    ensures r.Some? ==> r.value < |chain| && Holds(chain[r.value], symbol, kind)
    ensures r.Some? ==> forall j :: 0 <= j < r.value ==> !Holds(chain[j], symbol, kind)
  {
    if |chain| == 0 then None
    else if Holds(chain[0], symbol, kind) then Some(0)
    else match Find(chain[1..], symbol, kind)
      case None => None
      case Some(j) => Some(j + 1)
  }

  /** The chain after one `increment` of the pair: its entry bumped, or a new entry at the head. */
  function Bumped(chain: seq<TableEntry>, symbol: CString, kind: CString): seq<TableEntry> {
    match Find(chain, symbol, kind)
    case Some(j) => chain[j := chain[j].(count := chain[j].count + 1)]
    case None => [TableEntry(symbol, kind, 1)] + chain
  }

  /** The count recorded for the pair in a chain, 0 when absent. */
  function CountIn(chain: seq<TableEntry>, symbol: CString, kind: CString): nat {
    match Find(chain, symbol, kind)
    case Some(j) => chain[j].count
    case None => 0
  }

  /** No pair has two entries in the chain. */
  predicate Distinct(chain: seq<TableEntry>) {
    forall j, l :: 0 <= j < l < |chain| ==> !Holds(chain[l], chain[j].symbol, chain[j].kind)
  }

  /** The sum of the counts of a chain. */
  function ChainSum(chain: seq<TableEntry>): nat {
    if |chain| == 0 then 0 else ChainSum(chain[..|chain| - 1]) + chain[|chain| - 1].count
  }

  /** The sum of the counts of all chains. */
  function TableSum(chains: seq<seq<TableEntry>>): nat {
    if |chains| == 0 then 0 else TableSum(chains[..|chains| - 1]) + ChainSum(chains[|chains| - 1])
  }

  lemma {:induction false} ChainSumPrepend(e: TableEntry, chain: seq<TableEntry>)
    ensures ChainSum([e] + chain) == e.count + ChainSum(chain)
    decreases |chain|
  {
    if |chain| > 0 {
      ChainSumPrepend(e, chain[..|chain| - 1]);
      assert ([e] + chain)[..|chain|] == [e] + chain[..|chain| - 1];
    } else {
      assert [e] + chain == [e];
    }
  }

  lemma {:induction false} ChainSumBump(chain: seq<TableEntry>, j: nat)
    requires j < |chain|
    ensures ChainSum(chain[j := chain[j].(count := chain[j].count + 1)]) == ChainSum(chain) + 1
    decreases |chain|
  {
    var bumped := chain[j := chain[j].(count := chain[j].count + 1)];
    if j < |chain| - 1 {
      ChainSumBump(chain[..|chain| - 1], j);
      assert bumped[..|chain| - 1] == chain[..|chain| - 1][j := chain[j].(count := chain[j].count + 1)];
    } else {
      assert bumped[..|chain| - 1] == chain[..|chain| - 1];
    }
  }

  /** `increment` raises the chain's total by exactly one. */
  lemma BumpedSum(chain: seq<TableEntry>, symbol: CString, kind: CString)
    ensures ChainSum(Bumped(chain, symbol, kind)) == ChainSum(chain) + 1
  {
    match Find(chain, symbol, kind)
    case Some(j) => ChainSumBump(chain, j);
    case None => ChainSumPrepend(TableEntry(symbol, kind, 1), chain);
  }

  /** `increment` raises the pair's own count by exactly one. */
  lemma BumpedOwnCount(chain: seq<TableEntry>, symbol: CString, kind: CString)
    ensures CountIn(Bumped(chain, symbol, kind), symbol, kind) == CountIn(chain, symbol, kind) + 1
  {
    match Find(chain, symbol, kind)
    case Some(j) => FindBumpedSame(chain, j, symbol, kind);
    case None => FindFirst(Bumped(chain, symbol, kind), 0, symbol, kind);
  }

  /** `increment` leaves the count of every other pair as it was. */
  lemma BumpedOtherCount(chain: seq<TableEntry>, symbol: CString, kind: CString, s: CString, k: CString)
    requires !(s == symbol && k == kind)
    ensures CountIn(Bumped(chain, symbol, kind), s, k) == CountIn(chain, s, k)
  {
    match Find(chain, symbol, kind)
    case Some(j) => FindUnchanged(chain, j, symbol, kind, s, k);
    case None => CountBehind(TableEntry(symbol, kind, 1), chain, s, k);
  }

  /** An entry for another pair in front of a chain does not change the pair's count. */
  lemma CountBehind(e: TableEntry, chain: seq<TableEntry>, s: CString, k: CString)
    requires !Holds(e, s, k)
    ensures CountIn([e] + chain, s, k) == CountIn(chain, s, k)
  {
    var next := [e] + chain;
    assert next[1..] == chain;
    assert Find(next, s, k) == match Find(chain, s, k) case None => None case Some(i) => Some(i + 1);
  }

  /** A pair without an entry gets a new one with count 1 at the head, in front of the untouched chain. */
  lemma BumpedNew(chain: seq<TableEntry>, symbol: CString, kind: CString)
    requires CountIn(chain, symbol, kind) == 0 && forall j :: 0 <= j < |chain| ==> chain[j].count > 0
    ensures Bumped(chain, symbol, kind) == [TableEntry(symbol, kind, 1)] + chain
  {
  }

  /** `increment` keeps the chain free of duplicate pairs. */
  lemma BumpedDistinct(chain: seq<TableEntry>, symbol: CString, kind: CString)
    requires Distinct(chain)
    ensures Distinct(Bumped(chain, symbol, kind))
  {
    var next := Bumped(chain, symbol, kind);
    match Find(chain, symbol, kind)
    case Some(j) =>
      forall a, b | 0 <= a < b < |next|
        ensures !Holds(next[b], next[a].symbol, next[a].kind)
      {
        assert Holds(next[a], chain[a].symbol, chain[a].kind) && Holds(next[b], chain[b].symbol, chain[b].kind);
      }
    case None =>
      forall a, b | 0 <= a < b < |next|
        ensures !Holds(next[b], next[a].symbol, next[a].kind)
      {
        if a > 0 {
          assert next[a] == chain[a - 1] && next[b] == chain[b - 1];
        } else {
          assert next[b] == chain[b - 1];
        }
      }
  }

  /** Bumping the entry at `j` leaves that entry the first match of its pair. */
  lemma FindBumpedSame(chain: seq<TableEntry>, j: nat, symbol: CString, kind: CString)
    requires Find(chain, symbol, kind) == Some(j)
    ensures Find(chain[j := chain[j].(count := chain[j].count + 1)], symbol, kind) == Some(j)
  {
    var next := chain[j := chain[j].(count := chain[j].count + 1)];
    FindFirst(next, j, symbol, kind);
  }

  /** Bumping the entry at `j` does not move any other pair's entry. */
  lemma FindUnchanged(chain: seq<TableEntry>, j: nat, symbol: CString, kind: CString, s: CString, k: CString)
    requires Find(chain, symbol, kind) == Some(j) && !(s == symbol && k == kind)
    ensures CountIn(chain[j := chain[j].(count := chain[j].count + 1)], s, k) == CountIn(chain, s, k)
  {
    var next := chain[j := chain[j].(count := chain[j].count + 1)];
    forall i | 0 <= i < |chain|
      ensures Holds(next[i], s, k) == Holds(chain[i], s, k)
    {
    }
    match Find(chain, s, k)
    case None =>
    case Some(i) => FindFirst(next, i, s, k);
  }

  /** An index holding the pair with no earlier match is what `Find` returns. */
  lemma {:induction false} FindFirst(chain: seq<TableEntry>, i: nat, s: CString, k: CString)
    requires i < |chain| && Holds(chain[i], s, k)
    requires forall l :: 0 <= l < i ==> !Holds(chain[l], s, k)
    ensures Find(chain, s, k) == Some(i)
    decreases i
  {
    if i > 0 {
      FindFirst(chain[1..], i - 1, s, k);
    }
  }

  /** The table: 4096 chains and the number of increments so far. */
  class Table {
    var buckets: array<seq<TableEntry>>
    ghost var increments: nat

    /**
     * Each pair occurs at most once, always in the bucket its hash selects, and the counts add
     * up to the number of increments.
     */
    ghost predicate Valid()
      reads this, buckets
    {
      && buckets.Length == HASH_SIZE
      && ChainsValid(buckets[..])
      && TableSum(buckets[..]) == increments
    }

    /** `static Entry *table[HASH_SIZE]`: all chains empty. */
    constructor ()
      ensures Valid() && fresh(buckets) && increments == 0
      ensures forall i :: 0 <= i < HASH_SIZE ==> buckets[i] == []
    {
      buckets := new seq<TableEntry>[HASH_SIZE](_ => []);
      increments := 0;
      new;
      EmptyTableSum(buckets[..]);
      assert ChainsValid(buckets[..]);
    }

    /**
     * `increment`: walks the pair's chain; an entry for the pair has its count raised by one,
     * otherwise a new entry with count 1 is put at the head. No other bucket changes.
     */
    method Increment(symbol: CString, kind: CString)
      requires Valid()
      modifies this, buckets
      ensures Valid() && increments == old(increments) + 1
      ensures buckets == old(buckets)
      ensures buckets[..] == old(buckets[..])[Bucket(symbol, kind) := Bumped(old(buckets[Bucket(symbol, kind)]), symbol, kind)]
    {
      var h := HashPair(symbol, kind);
      var chain := buckets[h];
      var e := 0;
      while e < |chain|
        invariant e <= |chain|
        invariant forall l :: 0 <= l < e ==> !Holds(chain[l], symbol, kind)
      {
        if chain[e].symbol == symbol && chain[e].kind == kind {
          FindFirst(chain, e, symbol, kind);
          Store(h, Some(e), symbol, kind);
          return;
        }
        e := e + 1;
      }
      Store(h, None, symbol, kind);
    }

    /**
     * Updates the pair's bucket once the walk has found the pair's entry at `found`, or found
     * none: `e->count++`, or a new head entry linked to the old chain.
     */
    method Store(h: nat, found: Option<nat>, symbol: CString, kind: CString)
      requires Valid() && h == Bucket(symbol, kind) && found == Find(buckets[h], symbol, kind)
      modifies this, buckets
      ensures Valid() && increments == old(increments) + 1
      ensures buckets == old(buckets)
      ensures buckets[..] == old(buckets[..])[h := Bumped(old(buckets[h]), symbol, kind)]
    {
      ghost var before := buckets[..];
      var chain := buckets[h];
      ghost var next := Bumped(chain, symbol, kind);
      BumpKeepsValid(before, h, symbol, kind);
      var updated;
      match found {
        case Some(e) =>
          updated := chain[e := chain[e].(count := chain[e].count + 1)];
        case None =>
          updated := [TableEntry(symbol, kind, 1)] + chain;
      }
      assert updated == next;
      buckets[h] := updated;
      increments := increments + 1;
      assert buckets[..] == before[h := next];
    }

    /** `onInstruction`: an instruction without a symbol is not counted. */
    method OnInstruction(ia: InstAnalysis)
      requires Valid()
      modifies this, buckets
      ensures Valid() && buckets == old(buckets)
      ensures ia.symbolName.None? ==> buckets[..] == old(buckets[..]) && increments == old(increments)
      ensures ia.symbolName.Some? ==> increments == old(increments) + 1
      ensures ia.symbolName.Some? ==>
        var pair := (ia.symbolName.value, ClassifyKind(ia));
        buckets[..] == old(buckets[..])[Bucket(pair.0, pair.1) := Bumped(old(buckets[Bucket(pair.0, pair.1)]), pair.0, pair.1)]
    {
      if ia.symbolName.Some? {
        var symbol := ia.symbolName.value;
        var kind := ClassifyKind(ia);
        Increment(symbol, kind);
      }
    }

    /** `qbdipreload_on_exit`: one line per entry, bucket by bucket, each chain from its head. */
    method Dump() returns (lines: seq<string>)
      requires Valid()
      ensures lines == DumpLines(buckets[..])
    {
      lines := [];
      for i := 0 to HASH_SIZE
        invariant lines == DumpLines(buckets[..i])
      {
        var printed := DumpChain(buckets[i]);
        assert buckets[..i + 1][..i] == buckets[..i];
        lines := lines + printed;
      }
      assert buckets[..HASH_SIZE] == buckets[..];
    }
  }

  /** The inner loop of the dump: walks one chain from its head. */
  method DumpChain(chain: seq<TableEntry>) returns (lines: seq<string>)
    ensures lines == ChainLines(chain)
  {
    lines := [];
    for j := 0 to |chain|
      invariant lines == ChainLines(chain[..j])
    {
      assert chain[..j + 1][..j] == chain[..j];
      lines := lines + [DumpLine(chain[j])];
    }
    assert chain[..|chain|] == chain;
  }

  /** Every entry of the chain is in bucket `h` and has been counted at least once; no pair twice. */
  ghost predicate ChainValid(chain: seq<TableEntry>, h: nat) {
    && (forall j :: 0 <= j < |chain| ==> Bucket(chain[j].symbol, chain[j].kind) == h && chain[j].count > 0)
    && Distinct(chain)
  }

  /** Each chain is valid for its own bucket. */
  ghost predicate ChainsValid(chains: seq<seq<TableEntry>>) {
    forall i :: 0 <= i < |chains| ==> ChainValid(chains[i], i)
  }

  lemma ChainsValidUpdate(chains: seq<seq<TableEntry>>, h: nat, chain: seq<TableEntry>)
    requires ChainsValid(chains) && h < |chains| && ChainValid(chain, h)
    ensures ChainsValid(chains[h := chain])
  {
  }

  /** Bumping a pair in its bucket keeps all chains valid and adds one to the table's sum. */
  lemma BumpKeepsValid(chains: seq<seq<TableEntry>>, h: nat, symbol: CString, kind: CString)
    requires ChainsValid(chains) && h < |chains| && h == Bucket(symbol, kind)
    ensures ChainsValid(chains[h := Bumped(chains[h], symbol, kind)])
    ensures TableSum(chains[h := Bumped(chains[h], symbol, kind)]) == TableSum(chains) + 1
  {
    var next := Bumped(chains[h], symbol, kind);
    BumpedValid(chains[h], symbol, kind, h);
    BumpedSum(chains[h], symbol, kind);
    TableSumUpdate(chains, h, next);
    ChainsValidUpdate(chains, h, next);
  }

  /** Bumping a pair in its own bucket keeps the chain valid. */
  lemma BumpedValid(chain: seq<TableEntry>, symbol: CString, kind: CString, h: nat)
    requires ChainValid(chain, h) && h == Bucket(symbol, kind)
    ensures ChainValid(Bumped(chain, symbol, kind), h)
  {
    BumpedDistinct(chain, symbol, kind);
  }

  lemma {:induction false} EmptyTableSum(chains: seq<seq<TableEntry>>)
    requires forall i :: 0 <= i < |chains| ==> chains[i] == []
    ensures TableSum(chains) == 0
    decreases |chains|
  {
    if |chains| > 0 {
      EmptyTableSum(chains[..|chains| - 1]);
    }
  }

  /** Replacing one chain changes the table's sum by the difference of the two chains' sums. */
  lemma {:induction false} TableSumUpdate(chains: seq<seq<TableEntry>>, h: nat, chain: seq<TableEntry>)
    requires h < |chains|
    ensures TableSum(chains[h := chain]) + ChainSum(chains[h]) == TableSum(chains) + ChainSum(chain)
    decreases |chains|
  {
    var next := chains[h := chain];
    if h < |chains| - 1 {
      TableSumUpdate(chains[..|chains| - 1], h, chain);
      assert next[..|chains| - 1] == chains[..|chains| - 1][h := chain];
    } else {
      assert next[..|chains| - 1] == chains[..|chains| - 1];
    }
  }

  // ---------------------------------------------------------------------------
  // Classification

  /** The parts of QBDI's `InstAnalysis` that `classify` and `onInstruction` read. */
  datatype InstAnalysis = InstAnalysis(
    isBranch: bool, isCall: bool, isReturn: bool, isCompare: bool,
    mayLoad: bool, mayStore: bool, mnemonic: CString, symbolName: Option<CString>)

  /** `classify`: the first property that holds, in priority order, else the mnemonic. */
  function ClassifyKind(ia: InstAnalysis): (r: CString)
    ensures ia.isBranch ==> r == "branch"
    ensures !ia.isBranch && ia.isCall ==> r == "call"
    ensures !ia.isBranch && !ia.isCall && ia.isReturn ==> r == "return"
    ensures !ia.isBranch && !ia.isCall && !ia.isReturn && ia.isCompare ==> r == "compare"
    ensures !ia.isBranch && !ia.isCall && !ia.isReturn && !ia.isCompare && ia.mayLoad ==> r == "mem_read"
    ensures !ia.isBranch && !ia.isCall && !ia.isReturn && !ia.isCompare && !ia.mayLoad && ia.mayStore ==> r == "mem_store"
    ensures !ia.isBranch && !ia.isCall && !ia.isReturn && !ia.isCompare && !ia.mayLoad && !ia.mayStore ==> r == ia.mnemonic
  {
    if ia.isBranch then "branch"
    else if ia.isCall then "call"
    else if ia.isReturn then "return"
    else if ia.isCompare then "compare"
    else if ia.mayLoad then "mem_read"
    else if ia.mayStore then "mem_store"
    else ia.mnemonic
  }

  // ---------------------------------------------------------------------------
  // The exit dump

  const DUMP_PREFIX: string := "depict_qbdi::"

  /** `printf("depict_qbdi::%s/%s/%" PRIu64 "\n", ...)`, without the newline. */
  function DumpLine(e: TableEntry): string {
    DUMP_PREFIX + e.symbol + "/" + e.kind + "/" + Utilities.Dec(e.count)
  }

  function ChainLines(chain: seq<TableEntry>): seq<string> {
    if |chain| == 0 then [] else ChainLines(chain[..|chain| - 1]) + [DumpLine(chain[|chain| - 1])]
  }

  function DumpLines(chains: seq<seq<TableEntry>>): seq<string> {
    if |chains| == 0 then [] else DumpLines(chains[..|chains| - 1]) + ChainLines(chains[|chains| - 1])
  }

  function EntryCount(chains: seq<seq<TableEntry>>): nat {
    if |chains| == 0 then 0 else EntryCount(chains[..|chains| - 1]) + |chains[|chains| - 1]|
  }

  /** The dump prints exactly one line per table entry. */
  lemma {:induction false} DumpLineCount(chains: seq<seq<TableEntry>>)
    ensures |DumpLines(chains)| == EntryCount(chains)
    decreases |chains|
  {
    if |chains| > 0 {
      DumpLineCount(chains[..|chains| - 1]);
      ChainLineCount(chains[|chains| - 1]);
    }
  }

  lemma {:induction false} ChainLineCount(chain: seq<TableEntry>)
    ensures |ChainLines(chain)| == |chain|
    decreases |chain|
  {
    if |chain| > 0 {
      ChainLineCount(chain[..|chain| - 1]);
    }
  }

  /**
   * The record prefix of the dump is not the one the QBDI back end looks for, so every dumped
   * line is passed through as program output and none is counted.
   */
  lemma DumpLineIsPassedThrough(e: TableEntry)
    ensures QbdiStream.Classify(DumpLine(e)) == Success(QbdiStream.Passthrough)
  {
    FirstCharDiffers(DumpLine(e), QbdiStream.RECORD_PREFIX);
  }

  /** No line of the dump starts with the back end's record prefix. */
  lemma {:induction false} DumpLinesUnprefixed(chains: seq<seq<TableEntry>>)
    ensures forall i :: 0 <= i < |DumpLines(chains)| ==> !StartsWith(DumpLines(chains)[i], QbdiStream.RECORD_PREFIX)
    decreases |chains|
  {
    if |chains| > 0 {
      DumpLinesUnprefixed(chains[..|chains| - 1]);
      ChainLinesUnprefixed(chains[|chains| - 1]);
    }
  }

  lemma {:induction false} ChainLinesUnprefixed(chain: seq<TableEntry>)
    ensures forall i :: 0 <= i < |ChainLines(chain)| ==> !StartsWith(ChainLines(chain)[i], QbdiStream.RECORD_PREFIX)
    decreases |chain|
  {
    if |chain| > 0 {
      ChainLinesUnprefixed(chain[..|chain| - 1]);
      FirstCharDiffers(DumpLine(chain[|chain| - 1]), QbdiStream.RECORD_PREFIX);
    }
  }

  /**
   * Fed the tracer's whole dump, the QBDI back end prints every line and records nothing: a
   * grand total of 0 and no symbols.
   */
  lemma DumpYieldsNoSymbols(chains: seq<seq<TableEntry>>, demangle: string -> string, skipInternals: bool)
    ensures QbdiStream.Yields(QbdiStream.Process(DumpLines(chains), demangle, skipInternals), 0, map[], DumpLines(chains))
  {
    DumpLinesUnprefixed(chains);
    QbdiStream.AllPassthrough(DumpLines(chains), demangle, skipInternals);
  }

  /** The record line the back end parses: the same fields behind the `bm::` prefix. */
  function CorrectedDumpLine(e: TableEntry): string {
    QbdiStream.RECORD_PREFIX + e.symbol + "/" + e.kind + "/" + Utilities.Dec(e.count)
  }

  /**
   * With the back end's prefix, an entry whose symbol and kind have no `/` and whose count fits
   * a `u32` is read back as a record of exactly that symbol, kind and count.
   */
  lemma CorrectedDumpLineParses(e: TableEntry)
    requires '/' !in e.symbol && '/' !in e.kind && e.count <= U32_MAX
    ensures QbdiStream.Classify(CorrectedDumpLine(e)) == Success(QbdiStream.Record(e.symbol, e.kind, e.count))
  {
    var digits := Utilities.Dec(e.count);
    Utilities.DecIsNumeral(e.count);
    assert digits[0] != '+' by {
      assert IsDigit(digits[0]);
    }
    assert ParseUnsigned(digits, U32_MAX) == Some(e.count);
    assert CorrectedDumpLine(e) == QbdiStream.RECORD_PREFIX + e.symbol + ['/'] + e.kind + ['/'] + digits;
    QbdiStream.ClassifyRecord(e.symbol, e.kind, digits);
  }
}
