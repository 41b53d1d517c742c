/**
 * The counter model of `src/lib.rs`: eleven fixed instruction counters plus an open-ended
 * label-to-count map `others`, the in-place `add_other` and `+=`, and the fixed
 * twelve-row view `as_rows`.
 *
 * Counters are unbounded (`nat`): the source's `u32` fields panic on overflow in debug
 * builds, and that panic is not modelled.
 */
module Counters {

  /** The value held by a `Statistics` record at one moment. */
  datatype Snapshot = Snapshot(
    total: nat,
    memRead: nat,
    memWrite: nat,
    stackRead: nat,
    stackWrite: nat,
    call: nat,
    branch: nat,
    ret: nat,  // the source's `r#return`
    compare: nat,
    logic: nat,
    arithmetic: nat,
    others: map<string, nat>)

  /** A symbol and its statistics. */
  datatype Entry = Entry(symbolName: string, statistics: Snapshot)

  /** `Statistics::default()`. */
  const Zero: Snapshot := Snapshot(0, 0, 0, 0, 0, 0, 0, 0, 0, 0, 0, map[])

  /** `others.get(k)`, reading an absent label as 0. */
  function Get(m: map<string, nat>, k: string): nat {
    if k in m then m[k] else 0
  }

  /** Key-wise union of two count maps, summing the counts of a label present in both. */
  function UnionSum(a: map<string, nat>, b: map<string, nat>): map<string, nat> {
    map k | k in a.Keys + b.Keys :: Get(a, k) + Get(b, k)
  }

  lemma UnionSumEmpty(a: map<string, nat>)
    ensures UnionSum(a, map[]) == a
  {
  }

  lemma MapEqual(m: map<string, nat>, n: map<string, nat>)
    requires m.Keys == n.Keys
    requires forall k :: k in m ==> m[k] == n[k]
    ensures m == n
  {
  }

  /** What `add_other(key, value)` leaves: only `others[key]` changes, and `total` is untouched. */
  function WithOther(s: Snapshot, key: string, value: nat): (r: Snapshot)
    ensures r.others.Keys == s.others.Keys + {key}
    ensures r.others[key] == Get(s.others, key) + value
    ensures forall k :: k in s.others && k != key ==> r.others[k] == s.others[k]
    ensures r.(others := s.others) == s
  {
    s.(others := s.others[key := Get(s.others, key) + value])
  }

  /** What `a += b` leaves: field-wise sums and a key-wise union-sum of `others`. */
  function Merge(a: Snapshot, b: Snapshot): Snapshot {
    Snapshot(
      a.total + b.total,
      a.memRead + b.memRead,
      a.memWrite + b.memWrite,
      a.stackRead + b.stackRead,
      a.stackWrite + b.stackWrite,
      a.call + b.call,
      a.branch + b.branch,
      a.ret + b.ret,
      a.compare + b.compare,
      a.logic + b.logic,
      a.arithmetic + b.arithmetic,
      UnionSum(a.others, b.others))
  }

  /** After `a += b` the labels of `others` are those of either side, each with the two counts summed. */
  lemma MergeOthers(a: Snapshot, b: Snapshot)
    ensures Merge(a, b).others.Keys == a.others.Keys + b.others.Keys
    ensures forall k :: Get(Merge(a, b).others, k) == Get(a.others, k) + Get(b.others, k)
  {
  }

  lemma UnionSumCommutative(a: map<string, nat>, b: map<string, nat>)
    ensures UnionSum(a, b) == UnionSum(b, a)
  {
  }

  lemma UnionSumAssociative(a: map<string, nat>, b: map<string, nat>, c: map<string, nat>)
    ensures UnionSum(UnionSum(a, b), c) == UnionSum(a, UnionSum(b, c))
  {
    var l := UnionSum(UnionSum(a, b), c);
    var r := UnionSum(a, UnionSum(b, c));
    forall k | k in l ensures l[k] == r[k] {
      assert Get(UnionSum(a, b), k) == Get(a, k) + Get(b, k);
      assert Get(UnionSum(b, c), k) == Get(b, k) + Get(c, k);
    }
    MapEqual(l, r);
  }

  /** `+=` gives the same record whichever side is merged into the other. */
  lemma MergeCommutative(a: Snapshot, b: Snapshot)
    ensures Merge(a, b) == Merge(b, a)
  {
    UnionSumCommutative(a.others, b.others);
  }

  /** The grouping of several `+=` does not change the result. */
  lemma MergeAssociative(a: Snapshot, b: Snapshot, c: Snapshot)
    ensures Merge(Merge(a, b), c) == Merge(a, Merge(b, c))
  {
    UnionSumAssociative(a.others, b.others, c.others);
  }

  /** `Statistics::default()` is the neutral element of `+=`. */
  lemma MergeZero(a: Snapshot)
    ensures Merge(a, Zero) == a && Merge(Zero, a) == a
  {
    UnionSumEmpty(a.others);
    UnionSumCommutative(a.others, map[]);
  }

  /** `add_other(key, value)` is `+=` of a record whose only content is `others[key] = value`. */
  lemma WithOtherIsMerge(s: Snapshot, key: string, value: nat)
    ensures WithOther(s, key, value) == Merge(s, Zero.(others := map[key := value]))
  {
    assert WithOther(s, key, value).others == UnionSum(s.others, map[key := value]);
  }

  /** Some label of a non-empty set (the order in which a `HashMap` is walked is unspecified). */
  ghost function Pick(keys: set<string>): (k: string)
    requires keys != {}
    ensures k in keys
  {
    var k :| k in keys; k
  }

  /** `others.values().sum()`. */
  ghost function SumValues(m: map<string, nat>): nat
    decreases |m|
  {
    if |m| == 0 then 0
    else
      var k := Pick(m.Keys);
      assert |m - {k}| < |m| by { assert (m - {k}).Keys == m.Keys - {k}; }
      m[k] + SumValues(m - {k})
  }

  /** The sum does not depend on which label is taken out first. */
  lemma {:induction false} SumValuesRemove(m: map<string, nat>, k: string)
    requires k in m
    ensures SumValues(m) == m[k] + SumValues(m - {k})
    decreases |m|
  {
    var j := Pick(m.Keys);
    assert (m - {j}).Keys == m.Keys - {j};
    if j != k {
      assert (m - {k}).Keys == m.Keys - {k};
      SumValuesRemove(m - {j}, k);
      SumValuesRemove(m - {k}, j);
      assert m - {j} - {k} == m - {k} - {j};
    }
  }

  /** Taking a label out of the sum, present or not. */
  lemma SumValuesGet(m: map<string, nat>, k: string)
    ensures SumValues(m) == Get(m, k) + SumValues(m - {k})
  {
    if k in m { SumValuesRemove(m, k); } else { assert m - {k} == m; }
  }

  lemma UnionSumRemove(a: map<string, nat>, b: map<string, nat>, k: string)
    ensures UnionSum(a, b) - {k} == UnionSum(a - {k}, b - {k})
    ensures Get(UnionSum(a, b), k) == Get(a, k) + Get(b, k)
  {
  }

  /** The sum of a union-sum is the sum of the two sums. */
  lemma {:induction false} SumValuesUnionSum(a: map<string, nat>, b: map<string, nat>)
    ensures SumValues(UnionSum(a, b)) == SumValues(a) + SumValues(b)
    decreases b.Keys
  {
    if |b| == 0 {
      assert b == map[];
      assert UnionSum(a, b) == a;
    } else {
      var k := Pick(b.Keys);
      var u, a', b' := UnionSum(a, b), a - {k}, b - {k};
      assert b'.Keys == b.Keys - {k};
      UnionSumRemove(a, b, k);
      SumValuesUnionSum(a', b');
      assert SumValues(u - {k}) == SumValues(a') + SumValues(b');
      SumValuesGet(u, k);
      SumValuesGet(a, k);
      SumValuesGet(b, k);
    }
  }

  /** The labels of `as_rows`, in order. */
  const RowLabels: seq<string> := [
    "total", "mem_read", "mem_write", "stack_read", "stack_write", "call",
    "branch", "return", "compare", "logic", "arithmetic", "other"]

  /** `as_rows`: the eleven fixed counters, then one `other` row holding the sum of `others`. */
  ghost function AsRows(s: Snapshot): seq<(string, nat)> {
    [
      ("total", s.total),
      ("mem_read", s.memRead),
      ("mem_write", s.memWrite),
      ("stack_read", s.stackRead),
      ("stack_write", s.stackWrite),
      ("call", s.call),
      ("branch", s.branch),
      ("return", s.ret),
      ("compare", s.compare),
      ("logic", s.logic),
      ("arithmetic", s.arithmetic),
      ("other", SumValues(s.others))
    ]
  }

  /** The view has exactly twelve rows, labelled in documented order; the last carries the `others` sum. */
  lemma AsRowsShape(s: Snapshot)
    ensures |AsRows(s)| == 12
    ensures forall i :: 0 <= i < 12 ==> AsRows(s)[i].0 == RowLabels[i]
    ensures AsRows(s)[0].1 == s.total && AsRows(s)[11].1 == SumValues(s.others)
  {
  }

  /** Every row of the view is additive under `+=`, the `other` row included. */
  lemma AsRowsMerge(a: Snapshot, b: Snapshot)
    ensures forall i :: 0 <= i < 12 ==> AsRows(Merge(a, b))[i].1 == AsRows(a)[i].1 + AsRows(b)[i].1
  {
    SumValuesUnionSum(a.others, b.others);
  }

  /** `add_other` raises the `other` row by exactly `value` and leaves the other eleven rows alone. */
  lemma AsRowsWithOther(s: Snapshot, key: string, value: nat)
    ensures AsRows(WithOther(s, key, value))[11].1 == AsRows(s)[11].1 + value
    ensures forall i :: 0 <= i < 11 ==> AsRows(WithOther(s, key, value))[i] == AsRows(s)[i]
  {
    var m := WithOther(s, key, value).others;
    SumValuesRemove(m, key);
    assert m - {key} == s.others - {key};
    if key in s.others {
      SumValuesRemove(s.others, key);
    } else {
      assert s.others - {key} == s.others;
    }
  }

  /** The source's `Statistics`, whose counters `add_other` and `+=` update in place. */
  class Statistics {
    var total: nat
    var memRead: nat
    var memWrite: nat
    var stackRead: nat
    var stackWrite: nat
    var call: nat
    var branch: nat
    var ret: nat
    var compare: nat
    var logic: nat
    var arithmetic: nat
    var others: map<string, nat>

    function Value(): Snapshot
      reads this
    {
      Snapshot(total, memRead, memWrite, stackRead, stackWrite, call, branch, ret, compare, logic, arithmetic, others)
    }

    /** `Statistics::default()`: every counter 0, `others` empty. */
    constructor ()
      ensures Value() == Zero
    {
      total, memRead, memWrite, stackRead, stackWrite, call := 0, 0, 0, 0, 0, 0;
      branch, ret, compare, logic, arithmetic := 0, 0, 0, 0, 0;
      others := map[];
    }

    /** `add_other`: adds to one `others` bucket, creating it if absent; `total` is deliberately left alone. */
    method AddOther(key: string, value: nat)
      modifies this`others
      ensures Value() == WithOther(old(Value()), key, value)
      ensures others == old(others)[key := Get(old(others), key) + value]
    {
      if key in others {
        others := others[key := others[key] + value];
      } else {
        others := others[key := value];
      }
    }

    /** `+=`: adds every fixed counter, then feeds each `others` entry of `rhs` through `add_other`, in any order. */
    method AddAssign(rhs: Snapshot)
      modifies this
      ensures Value() == Merge(old(Value()), rhs)
    {
      AddFixed(rhs);
      AddOthers(rhs.others);
    }

    /** The first part of `+=`: the eleven fixed counters, `total` included. */
    method AddFixed(rhs: Snapshot)
      modifies this`total, this`memRead, this`memWrite, this`stackRead, this`stackWrite, this`call
      modifies this`branch, this`ret, this`compare, this`logic, this`arithmetic
      ensures total == old(total) + rhs.total && memRead == old(memRead) + rhs.memRead
      ensures memWrite == old(memWrite) + rhs.memWrite && stackRead == old(stackRead) + rhs.stackRead
      ensures stackWrite == old(stackWrite) + rhs.stackWrite && call == old(call) + rhs.call
      ensures branch == old(branch) + rhs.branch && ret == old(ret) + rhs.ret
      ensures compare == old(compare) + rhs.compare && logic == old(logic) + rhs.logic
      ensures arithmetic == old(arithmetic) + rhs.arithmetic
    {
      total := total + rhs.total;
      memRead := memRead + rhs.memRead;
      memWrite := memWrite + rhs.memWrite;
      stackRead := stackRead + rhs.stackRead;
      stackWrite := stackWrite + rhs.stackWrite;
      call := call + rhs.call;
      branch := branch + rhs.branch;
      ret := ret + rhs.ret;
      compare := compare + rhs.compare;
      logic := logic + rhs.logic;
      arithmetic := arithmetic + rhs.arithmetic;
    }

    /** The loop of `+=` that feeds every entry of the right-hand side's `others` through `add_other`. */
    method AddOthers(more: map<string, nat>)
      modifies this`others
      ensures others == UnionSum(old(others), more)
    {
      ghost var done: map<string, nat> := map[];
      var pending := more.Keys;
      while pending != {}
        invariant pending <= more.Keys
        invariant done.Keys == more.Keys - pending
        invariant forall k :: k in done ==> done[k] == more[k]
        invariant others.Keys == old(others).Keys + done.Keys
        invariant forall k :: k in others ==> others[k] == Get(old(others), k) + Get(done, k)
        decreases pending
      {
        var key :| key in pending;
        AddOther(key, more[key]);
        done := done[key := more[key]];
        pending := pending - {key};
      }
      assert done == more by { MapEqual(done, more); }
      MapEqual(others, UnionSum(old(others), more));
    }
  }
}
