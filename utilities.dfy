/**
 * `src/utilities.rs`: the sort direction with its comparator, and the decimal
 * rendering with a thousands separator used for the plain-text report.
 */
module Utilities {
  import opened Common
  import opened Text

  /** `std::cmp::Ordering`. */
  datatype Ordering = Less | Equal | Greater {
    /** `Ordering::reverse`. */
    function Reverse(): (r: Ordering)
      ensures r.Equal? <==> this.Equal?
      ensures r.Less? <==> this.Greater?
    {
      match this
      case Less => Greater
      case Equal => Equal
      case Greater => Less
    }
  }

  /** `Direction`. */
  datatype Direction = Ascending | Descending

  /** `Sorting`: a field name and a direction. The field is checked only when the report is printed. */
  datatype Sorting = Sorting(field: string, direction: Direction)

  /** `Ord::cmp` on the unsigned counters. */
  function CmpNat(a: nat, b: nat): (r: Ordering)
    ensures r.Less? <==> a < b
    ensures r.Equal? <==> a == b
    ensures r.Greater? <==> a > b
  {
    if a < b then Less else if a == b then Equal else Greater
  }

  /** `Ord::cmp` on strings: lexicographic, element by element, a proper prefix coming first. */
  function CmpStr(a: string, b: string): Ordering {
    if |a| == 0 && |b| == 0 then Equal
    else if |a| == 0 then Less
    else if |b| == 0 then Greater
    else if a[0] < b[0] then Less
    else if a[0] > b[0] then Greater
    else CmpStr(a[1..], b[1..])
  }

  /** `Direction::compare` applied to the ordering `a.cmp(b)`: `Ascending` reverses it, `Descending` keeps it. */
  function Apply(d: Direction, order: Ordering): (r: Ordering)
    ensures d.Descending? ==> r == order
    ensures d.Ascending? ==> r == order.Reverse()
  {
    if d.Ascending? then order.Reverse() else order
  }

  /** Two strings compare equal exactly when they are the same string. */
  lemma {:induction false} CmpStrEqual(a: string, b: string)
    ensures CmpStr(a, b).Equal? <==> a == b
    decreases |a|
  {
    if |a| > 0 && |b| > 0 && a[0] == b[0] {
      CmpStrEqual(a[1..], b[1..]);
      if a[1..] == b[1..] {
        assert a == [a[0]] + a[1..] && b == [b[0]] + b[1..];
      }
    }
  }

  /** Swapping the operands reverses the string ordering. */
  lemma {:induction false} CmpStrFlip(a: string, b: string)
    ensures CmpStr(b, a) == CmpStr(a, b).Reverse()
    decreases |a|
  {
    if |a| > 0 && |b| > 0 && a[0] == b[0] {
      CmpStrFlip(a[1..], b[1..]);
    }
  }

  /** "Not greater" on strings is transitive. */
  lemma {:induction false} CmpStrTransitive(a: string, b: string, c: string)
    requires !CmpStr(a, b).Greater? && !CmpStr(b, c).Greater?
    ensures !CmpStr(a, c).Greater?
    decreases |a|
  {
    if |a| > 0 && |b| > 0 && |c| > 0 && a[0] == b[0] && b[0] == c[0] {
      CmpStrTransitive(a[1..], b[1..], c[1..]);
    }
  }

  /** The two directions are mirror images: ascending on `(a, b)` is descending on `(b, a)`. */
  lemma DirectionsMirror(a: string, b: string, x: nat, y: nat)
    ensures Apply(Ascending, CmpStr(a, b)) == Apply(Descending, CmpStr(b, a))
    ensures Apply(Ascending, CmpNat(x, y)) == Apply(Descending, CmpNat(y, x))
  {
    CmpStrFlip(a, b);
  }

  // ---------------------------------------------------------------------------
  // Decimal rendering

  /** `10^i`. */
  function Pow10(i: nat): (r: nat)
    ensures r >= 1
  {
    if i == 0 then 1 else 10 * Pow10(i - 1)
  }

  /** `usize::ilog10` for a positive value, and 0 for 0 (where the source never calls it). */
  function ILog10(v: nat): nat {
    if v < 10 then 0 else 1 + ILog10(v / 10)
  }

  /** The integer logarithm brackets the value between two powers of ten. */
  lemma {:induction false} ILog10Bounds(v: nat)
    requires v > 0
    ensures Pow10(ILog10(v)) <= v < Pow10(ILog10(v) + 1)
    decreases v
  {
    if v >= 10 {
      ILog10Bounds(v / 10);
    }
  }

  const I32_MAX: nat := 0x7FFF_FFFF

  /** `10i32.pow(i)` stays in range up to `i = 9` and overflows from `i = 10` on. */
  lemma {:induction false} Pow10FitsI32(i: nat)
    ensures Pow10(i) <= I32_MAX <==> i < 10
    decreases i
  {
    if i > 10 {
      Pow10FitsI32(i - 1);
    } else if i == 10 {
      assert Pow10(10) == 10_000_000_000;
    } else {
      assert Pow10(9) == 1_000_000_000;
      Pow10Monotone(i, 9);
    }
  }

  lemma {:induction false} Pow10Monotone(i: nat, j: nat)
    requires i <= j
    ensures Pow10(i) <= Pow10(j)
    decreases j
  {
    if i < j {
      Pow10Monotone(i, j - 1);
    }
  }

  /** A value has at most ten digits exactly when its integer logarithm is at most 9. */
  lemma ILog10Below(v: nat)
    requires v > 0
    ensures ILog10(v) < 10 <==> v < Pow10(10)
  {
    ILog10Bounds(v);
    if ILog10(v) < 10 {
      Pow10Monotone(ILog10(v) + 1, 10);
    } else {
      Pow10Monotone(10, ILog10(v));
    }
  }

  /** The character `b"0123456789"[d]`. */
  function Digit(d: nat): (c: char)
    requires d < 10
    ensures IsDigit(c) && (c - '0') as nat == d
  {
    ('0' as int + d) as char
  }

  /** The canonical decimal numeral of `v`: no leading zero, and `"0"` for zero. */
  function Dec(v: nat): string {
    if v < 10 then [Digit(v)] else Dec(v / 10) + [Digit(v % 10)]
  }

  /** `Dec` is a numeral for `v` without leading zeros. */
  lemma {:induction false} DecIsNumeral(v: nat)
    ensures |Dec(v)| == ILog10(v) + 1
    ensures AllDigits(Dec(v)) && DigitsValue(Dec(v)) == v
    ensures Dec(v)[0] == '0' <==> v == 0
    decreases v
  {
    if v >= 10 {
      DecIsNumeral(v / 10);
      var s := Dec(v);
      assert s[..|s| - 1] == Dec(v / 10);
    }
  }

  /**
   * The numeral `Display` writes for `v` parses back to `v` under any bound it fits,
   * with or without a leading `+`.
   */
  lemma ParseDec(v: nat, max: nat)
    requires v <= max
    ensures ParseUnsigned(Dec(v), max) == Some(v)
    ensures ParseUnsigned("+" + Dec(v), max) == Some(v)
  {
    DecIsNumeral(v);
    assert ("+" + Dec(v))[1..] == Dec(v);
  }

  /** The three digits of `x < 1000`, zero-padded. */
  function Pad3(x: nat): string
    requires x < 1000
  {
    [Digit(x / 100), Digit(x / 10 % 10), Digit(x % 10)]
  }

  /**
   * The reference rendering: the numeral of `v` with `separator` between groups of three
   * digits, counted from the right.
   */
  function Grouped(v: nat, separator: string): string {
    if v < 1000 then Dec(v) else Grouped(v / 1000, separator) + separator + Pad3(v % 1000)
  }

  /** With an empty separator the grouped form is the plain numeral. */
  lemma {:induction false} GroupedUngrouped(v: nat)
    ensures Grouped(v, "") == Dec(v)
    decreases v
  {
    if v >= 1000 {
      GroupedUngrouped(v / 1000);
      Thousands(v);
      assert Dec(v) == Dec(v / 10) + [Digit(v % 10)];
      assert Dec(v / 10) == Dec(v / 10 / 10) + [Digit(v / 10 % 10)];
      assert Dec(v / 10 / 10) == Dec(v / 10 / 10 / 10) + [Digit(v / 10 / 10 % 10)];
    }
  }

  /** The separator appears once for every full group of three digits after the leading group. */
  lemma {:induction false} GroupedLength(v: nat, separator: string)
    ensures |Grouped(v, separator)| == ILog10(v) + 1 + ILog10(v) / 3 * |separator|
    decreases v
  {
    if v >= 1000 {
      GroupedLength(v / 1000, separator);
      ILog10Div1000(v);
      assert |Grouped(v, separator)| == |Grouped(v / 1000, separator)| + |separator| + 3;
      GroupCountStep(ILog10(v), |separator|);
    } else {
      DecIsNumeral(v);
      ILog10Small(v);
    }
  }

  /** One more group of three digits adds three digits and one separator. */
  lemma GroupCountStep(l: nat, width: nat)
    requires l >= 3
    ensures (l - 3) + 1 + (l - 3) / 3 * width + width + 3 == l + 1 + l / 3 * width
  {
    var n := l / 3;
    assert (l - 3) / 3 == n - 1;
    assert (n - 1) * width + width == n * width;
  }

  lemma ILog10Small(v: nat)
    requires v < 1000
    ensures ILog10(v) <= 2
    ensures v >= 10 ==> ILog10(v) >= 1
    ensures v >= 100 ==> ILog10(v) == 2
  {
    if v >= 10 {
      assert v / 10 < 100;
      assert ILog10(v) == 1 + ILog10(v / 10);
      if v / 10 >= 10 {
        assert v / 10 / 10 < 10;
        assert ILog10(v / 10) == 1 + ILog10(v / 10 / 10);
      }
    }
  }

  lemma ILog10Div1000(v: nat)
    requires v >= 1000
    ensures ILog10(v / 1000) == ILog10(v) - 3
  {
    Thousands(v);
    assert ILog10(v) == 1 + ILog10(v / 10);
    assert ILog10(v / 10) == 1 + ILog10(v / 10 / 10);
    assert ILog10(v / 10 / 10) == 1 + ILog10(v / 10 / 10 / 10);
  }

  /** Decimal arithmetic on the last three digits, by constant divisors only. */
  lemma Thousands(v: nat)
    ensures v / 10 / 10 == v / 100 && v / 10 / 10 / 10 == v / 1000
    ensures v % 1000 / 100 == v / 100 % 10 && v % 1000 / 10 % 10 == v / 10 % 10 && v % 1000 % 10 == v % 10
    ensures v >= 1000 ==> v / 10 >= 100 && v / 100 >= 10
  {
    var a, b, c := v / 10, v / 100, v / 1000;
    assert 10 * a <= v < 10 * a + 10 && 100 * b <= v < 100 * b + 100 && 1000 * c <= v < 1000 * c + 100 * 10;
    assert a / 10 == b by {
      assert 10 * (a / 10) <= a < 10 * (a / 10) + 10;
    }
    assert b / 10 == c by {
      assert 10 * (b / 10) <= b < 10 * (b / 10) + 10;
    }
    var low := v % 1000;
    assert v == 1000 * c + low;
    assert low / 100 == b % 10 by {
      assert b == 10 * c + low / 100 by {
        assert 100 * (low / 100) <= low < 100 * (low / 100) + 100;
      }
    }
    assert low / 10 % 10 == a % 10 by {
      assert a == 100 * c + low / 10 by {
        assert 10 * (low / 10) <= low < 10 * (low / 10) + 10;
      }
    }
  }

  // ---------------------------------------------------------------------------
  // The loop of `to_denary`

  /** `(value / 10^i) % 10`: the digit at position `i`, counted from 0 at the right. */
  function DigitAt(v: nat, i: nat): nat {
    (v / Pow10(i)) % 10
  }

  /** One iteration of the loop: the digit at position `i`, then the separator when `i` is a positive multiple of 3. */
  function Step(v: nat, i: nat, separator: string): string {
    [Digit(DigitAt(v, i))] + (if i > 0 && i % 3 == 0 then separator else "")
  }

  /** What the loop has written after visiting positions `top` down to `k`. */
  function Written(v: nat, top: nat, k: nat, separator: string): string
    requires k <= top + 1
    decreases top + 1 - k
  {
    if k == top + 1 then "" else Written(v, top, k + 1, separator) + Step(v, k, separator)
  }

  lemma MulAtLeast(d: int, x: int)
    requires d >= 0 && x >= 1
    ensures d * x >= d
  {
  }

  lemma MulZero(d: int, x: int)
    requires d > 0 && -d < d * x < d
    ensures x == 0
  {
    if x > 0 {
      MulAtLeast(d, x);
    } else if x < 0 {
      MulAtLeast(d, -x);
    }
  }

  lemma DivUnique(a: int, d: int, q: int, r: int)
    requires d > 0 && 0 <= r < d && a == d * q + r
    ensures a / d == q
  {
    var q0, r0 := a / d, a % d;
    assert d * q + r == d * q0 + r0;
    assert d * (q - q0) == r0 - r;
    MulZero(d, q - q0);
  }

  lemma DivDiv(a: nat, b: nat, c: nat)
    requires b > 0 && c > 0
    ensures a / b / c == a / (b * c)
  {
    var q, r1 := a / b, a % b;
    var q2, r2 := q / c, q % c;
    assert a == b * q + r1;
    assert q == c * q2 + r2;
    assert b * q == b * (c * q2) + b * r2;
    assert b * (c * q2) == (b * c) * q2;
    MulMonotone(b, r2, c - 1);
    assert b * (c - 1) == b * c - b;
    DivUnique(a, b * c, q2, b * r2 + r1);
  }

  lemma MulMonotone(b: int, x: int, y: int)
    requires b >= 0 && x <= y
    ensures b * x <= b * y
  {
  }

  /** Positions from 4 up read the same digits of `v` as positions 3 lower do of `v / 1000`. */
  lemma {:induction false} WrittenShift(v: nat, top: nat, k: nat, separator: string)
    requires 3 <= top && 4 <= k <= top + 1
    ensures Written(v, top, k, separator) == Written(v / 1000, top - 3, k - 3, separator)
    decreases top + 1 - k
  {
    if k <= top {
      WrittenShift(v, top, k + 1, separator);
      assert Pow10(k) == 1000 * Pow10(k - 3) by {
        assert Pow10(k) == 10 * Pow10(k - 1);
        assert Pow10(k - 1) == 10 * Pow10(k - 2);
        assert Pow10(k - 2) == 10 * Pow10(k - 3);
      }
      DivDiv(v, 1000, Pow10(k - 3));
      assert DigitAt(v, k) == DigitAt(v / 1000, k - 3);
    }
  }

  /** The digits at positions 0 to 3. */
  lemma LowPositions(v: nat)
    ensures DigitAt(v, 0) == v % 10 && DigitAt(v, 1) == v / 10 % 10
    ensures DigitAt(v, 2) == v / 100 % 10 && DigitAt(v, 3) == v / 1000 % 10
  {
    assert Pow10(1) == 10 && Pow10(2) == 100 && Pow10(3) == 1000;
  }

  /** Below 1000 the loop writes the plain numeral and no separator. */
  lemma SmallWritten(v: nat, separator: string)
    requires 0 < v < 1000
    ensures Written(v, ILog10(v), 0, separator) == Dec(v)
  {
    ILog10Small(v);
    LowPositions(v);
    Thousands(v);
    if v < 10 {
      assert Written(v, 0, 0, separator) == Written(v, 0, 1, separator) + [Digit(v % 10)];
    } else if v < 100 {
      assert Written(v, 1, 1, separator) == Written(v, 1, 2, separator) + [Digit(v / 10 % 10)];
      assert Written(v, 1, 0, separator) == Written(v, 1, 1, separator) + [Digit(v % 10)];
      assert Dec(v) == Dec(v / 10) + [Digit(v % 10)];
    } else {
      SmallWrittenHundreds(v, separator);
    }
  }

  lemma SmallWrittenHundreds(v: nat, separator: string)
    requires 100 <= v < 1000
    ensures Written(v, 2, 0, separator) == Dec(v)
  {
    LowPositions(v);
    Thousands(v);
    var hundreds := Written(v, 2, 2, separator);
    assert hundreds == Written(v, 2, 3, separator) + [Digit(v / 100 % 10)];
    var tens := Written(v, 2, 1, separator);
    assert tens == hundreds + [Digit(v / 10 % 10)];
    assert Written(v, 2, 0, separator) == tens + [Digit(v % 10)];
    assert Dec(v) == Dec(v / 10) + [Digit(v % 10)];
    assert Dec(v / 10) == Dec(v / 10 / 10) + [Digit(v / 10 % 10)];
  }

  /** The last four positions the loop visits: the digit at position 3 and its separator, then three digits. */
  lemma WrittenLowGroup(v: nat, top: nat, separator: string)
    requires top >= 3
    ensures Written(v, top, 0, separator)
         == Written(v, top, 4, separator) + [Digit(DigitAt(v, 3))] + separator + Pad3(v % 1000)
  {
    LowPositions(v);
    Thousands(v);
    assert Written(v, top, 0, separator) == Written(v, top, 1, separator) + [Digit(DigitAt(v, 0))];
    assert Written(v, top, 1, separator) == Written(v, top, 2, separator) + [Digit(DigitAt(v, 1))];
    assert Written(v, top, 2, separator) == Written(v, top, 3, separator) + [Digit(DigitAt(v, 2))];
  }

  /** The loop of `to_denary` writes exactly the grouped numeral. */
  lemma {:induction false} WrittenIsGrouped(v: nat, separator: string)
    requires v > 0
    ensures Written(v, ILog10(v), 0, separator) == Grouped(v, separator)
    decreases v
  {
    var top := ILog10(v);
    ILog10Bounds(v);
    if v < 1000 {
      SmallWritten(v, separator);
    } else {
      var w := v / 1000;
      ILog10Div1000(v);
      WrittenShift(v, top, 4, separator);
      WrittenIsGrouped(w, separator);
      WrittenLowGroup(v, top, separator);
      assert Written(w, top - 3, 0, separator) == Written(w, top - 3, 1, separator) + [Digit(DigitAt(w, 0))];
      LowPositions(w);
      assert DigitAt(w, 0) == DigitAt(v, 3);
      Thousands(v);
    }
  }

  /**
   * `to_denary`: zero is `"0"`; otherwise one digit per position from `ilog10` down to 0,
   * with `separator` after positions 3, 6, 9, ... The divisor is computed as `10i32.pow(i)`,
   * which overflows (a panic) for any value of eleven or more digits.
   */
  method ToDenary(value: nat, separator: string) returns (r: Result<string, string>)
    ensures r.Success? <==> value < Pow10(10)
    ensures r.Success? ==> r.value == Grouped(value, separator)
  {
    if value == 0 {
      return Success("0");
    }
    var top := ILog10(value);
    ILog10Below(value);
    var buf := "";
    var k := top + 1;
    while k > 0
      invariant k <= top + 1
      invariant top < 10 || k == top + 1
      invariant buf == Written(value, top, k, separator)
    {
      var i := k - 1;
      Pow10FitsI32(i);
      if Pow10(i) > I32_MAX {
        return Failure("attempt to multiply with overflow");
      }
      var j := (value / Pow10(i)) % 10;
      var pushed := [Digit(j)];
      if i > 0 && i % 3 == 0 {
        pushed := pushed + separator;
      }
      buf := buf + pushed;
      k := i;
    }
    WrittenIsGrouped(value, separator);
    return Success(buf);
  }

  const NON_BREAKING_SPACE: string := "\U{00A0}"

  /** `count_with_seperator`: `to_denary` with a no-break space between groups of three digits. */
  method CountWithSeparator(value: nat) returns (r: Result<string, string>)
    ensures r.Success? <==> value < Pow10(10)
    ensures r.Success? ==> r.value == Grouped(value, NON_BREAKING_SPACE)
  {
    r := ToDenary(value, NON_BREAKING_SPACE);
  }

  /** Worked example: 1234567 is written with two no-break spaces. */
  lemma GroupedExample()
    ensures Grouped(1234567, NON_BREAKING_SPACE) == "1\U{00A0}234\U{00A0}567"
    ensures Grouped(0, NON_BREAKING_SPACE) == "0" && Grouped(1000, ",") == "1,000"
  {
  }

  /** Every `u32` counter fits: `to_denary` can only fail on values above `u32::MAX`. */
  lemma U32CountsRender(value: nat)
    requires value <= U32_MAX
    ensures value < Pow10(10)
  {
    assert Pow10(10) == 10_000_000_000;
  }

  /** Ten billion, a valid `usize`, is the least value whose rendering overflows `10i32.pow`. */
  lemma ToDenaryOverflowExample()
    ensures ILog10(10_000_000_000) == 10 && Pow10(10) > I32_MAX
    ensures 10_000_000_000 <= USIZE_MAX
    ensures forall v: nat :: 0 < v < 10_000_000_000 ==> ILog10(v) < 10
  {
    assert Pow10(10) == 10_000_000_000;
    forall v: nat | 0 < v < 10_000_000_000
      ensures ILog10(v) < 10
    {
      ILog10Below(v);
    }
  }
}
