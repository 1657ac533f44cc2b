/**
 * Regrouping a bit string from groups of one width into groups of another (`convertBits`,
 * src/api/carrier-address.ts). The bit string of a list of groups is the number it writes, most
 * significant group first.
 */
module Regrouping {
  import opened Prelude

  function Pow2(n: nat): (r: nat)
    ensures r > 0
  {
    if n == 0 then 1 else 2 * Pow2(n - 1)
  }

  // Shifts and masks of non-negative numbers that stay below 2^31, as the source uses them.

  function ShiftLeft(n: int, k: nat): int {
    n * Pow2(k)
  }

  function ShiftRight(n: int, k: nat): int {
    n / Pow2(k)
  }

  function Mask(n: int, k: nat): int {
    n % Pow2(k)
  }

  lemma SplitAt(n: int, k: nat)
    ensures n == ShiftLeft(ShiftRight(n, k), k) + Mask(n, k)
    ensures 0 <= Mask(n, k) < Pow2(k)
    ensures n >= 0 ==> ShiftRight(n, k) >= 0
  {
    hide Pow2;
  }

  lemma Between(d: int, k: int)
    requires d > 0 && -d < k * d < d
    ensures k == 0
  {
  }

  lemma SplitOnce(n: int, k: nat, q: int, r: int)
    requires n == ShiftLeft(q, k) + r && 0 <= r < Pow2(k)
    ensures ShiftRight(n, k) == q && Mask(n, k) == r
  {
    SplitAt(n, k);
    var d := ShiftRight(n, k) - q;
    LeftOfSum(d, q, k);
    SameQuotient(d, k);
  }

  lemma SameQuotient(d: int, k: nat)
    requires ShiftLeft(d, k) < Pow2(k) && -ShiftLeft(d, k) < Pow2(k)
    ensures d == 0
  {
    hide Pow2;
    Between(Pow2(k), d);
  }

  lemma LeftOfSum(a: int, b: int, k: nat)
    ensures ShiftLeft(a + b, k) == ShiftLeft(a, k) + ShiftLeft(b, k)
  {
    hide Pow2;
  }

  lemma {:induction false} Pow2Sum(a: nat, b: nat)
    ensures Pow2(a + b) == Pow2(a) * Pow2(b)
  {
    if a > 0 {
      Pow2Sum(a - 1, b);
      Double(Pow2(a - 1), Pow2(b));
    }
  }

  lemma Double(a: int, b: int)
    ensures 2 * (a * b) == (2 * a) * b
  {
  }

  lemma LeftTwice(n: int, j: nat, k: nat)
    ensures ShiftLeft(ShiftLeft(n, j), k) == ShiftLeft(n, j + k)
  {
    hide Pow2;
    Pow2Sum(j, k);
    Associate(n, Pow2(j), Pow2(k));
  }

  lemma Associate(a: int, b: int, c: int)
    ensures (a * b) * c == a * (b * c)
  {
  }

  lemma LeftStays(n: int, j: nat, k: nat)
    requires 0 <= n < Pow2(j)
    ensures 0 <= ShiftLeft(n, k) <= Pow2(j + k) - Pow2(k)
  {
    hide Pow2;
    Pow2Sum(j, k);
    Grow(n, Pow2(j), Pow2(k));
  }

  lemma Grow(n: int, a: int, b: int)
    requires 0 <= n < a && b > 0
    ensures 0 <= n * b <= a * b - b
  {
    NotNegative(n, b);
    NotNegative(a - 1 - n, b);
    Distribute(a - 1 - n, n, b);
    Distribute(a - 1, 1, b);
  }

  lemma NotNegative(a: int, b: int)
    requires a >= 0 && b >= 0
    ensures a * b >= 0
  {
  }

  lemma Distribute(a: int, b: int, c: int)
    ensures (a + b) * c == a * c + b * c
  {
  }

  /** Cutting a number at bit `a` and then at bit `b` above it. */
  lemma SplitTwice(n: int, a: nat, b: nat)
    ensures ShiftRight(ShiftRight(n, a), b) == ShiftRight(n, a + b)
    ensures ShiftRight(Mask(n, a + b), a) == Mask(ShiftRight(n, a), b)
    ensures Mask(Mask(n, a + b), a) == Mask(n, a)
  {
    hide ShiftLeft, ShiftRight, Mask, Pow2;
    var q, r := ShiftRight(n, a), Mask(n, a);
    var p, s := ShiftRight(q, b), Mask(q, b);
    SplitAt(n, a);
    SplitAt(q, b);
    LeftOfSum(ShiftLeft(p, b), s, a);
    LeftTwice(p, b, a);
    LeftStays(s, b, a);
    SplitOnce(n, a + b, p, ShiftLeft(s, a) + r);
    SplitOnce(ShiftLeft(s, a) + r, a, s, r);
  }

  /** Truncating to `m` bits keeps every group that lies within them. */
  lemma GroupOfTruncated(n: int, m: nat, low: nat, width: nat)
    requires low + width <= m
    ensures Mask(ShiftRight(Mask(n, m), low), width) == Mask(ShiftRight(n, low), width)
    ensures Mask(Mask(n, m), low) == Mask(n, low)
  {
    hide ShiftLeft, ShiftRight, Mask, Pow2;
    SplitTwice(n, low, m - low);
    SplitTwice(ShiftRight(n, low), width, m - low - width);
  }

  /** Appending a group. */
  lemma Appended(n: int, from: nat, v: int, bits: nat)
    requires 0 <= v < Pow2(from)
    ensures ShiftRight(ShiftLeft(n, from) + v, bits + from) == ShiftRight(n, bits)
  {
    hide ShiftLeft, ShiftRight, Mask, Pow2;
    SplitOnce(ShiftLeft(n, from) + v, from, n, v);
    SplitTwice(ShiftLeft(n, from) + v, from, bits);
  }

  /** Appending a group to a truncated number. */
  lemma AppendedTruncated(n: int, m: nat, from: nat, v: int)
    ensures Mask(ShiftLeft(Mask(n, m), from) + v, m) == Mask(ShiftLeft(n, from) + v, m)
  {
    hide ShiftLeft, ShiftRight, Mask, Pow2;
    var q, x := ShiftRight(n, m), ShiftLeft(Mask(n, m), from) + v;
    SplitAt(n, m);
    LeftOfSum(ShiftLeft(q, m), Mask(n, m), from);
    LeftTwice(q, m, from);
    LeftTwice(q, from, m);
    SplitAt(x, m);
    LeftOfSum(ShiftLeft(q, from), ShiftRight(x, m), m);
    SplitOnce(ShiftLeft(n, from) + v, m, ShiftLeft(q, from) + ShiftRight(x, m), Mask(x, m));
  }

  /** Moving the low `bits` of a number to the top of a group of `to` bits. */
  lemma MovedUp(n: int, bits: nat, to: nat)
    requires bits <= to
    ensures Mask(ShiftLeft(n, to - bits), to) == ShiftLeft(Mask(n, bits), to - bits)
    ensures ShiftRight(ShiftLeft(n, to - bits), to) == ShiftRight(n, bits)
    ensures ShiftLeft(Mask(n, bits), to - bits) == 0 <==> Mask(n, bits) == 0
  {
    hide ShiftLeft, ShiftRight, Mask, Pow2;
    var q, r := ShiftRight(n, bits), Mask(n, bits);
    SplitAt(n, bits);
    LeftOfSum(ShiftLeft(q, bits), r, to - bits);
    LeftTwice(q, bits, to - bits);
    LeftStays(r, bits, to - bits);
    SplitOnce(ShiftLeft(n, to - bits), to, q, ShiftLeft(r, to - bits));
    LeftOfZero(r, to - bits);
  }

  lemma LeftOfZero(n: int, k: nat)
    ensures ShiftLeft(n, k) == 0 <==> n == 0
  {
    hide Pow2;
  }

  lemma ShiftByNothing(n: int)
    ensures ShiftLeft(n, 0) == n && ShiftRight(n, 0) == n && Mask(n, 0) == 0
  {
  }

  // ----- numbers and their digits -------------------------------------------------------------

  predicate Fits(values: seq<int>, width: nat) {
    forall i :: 0 <= i < |values| ==> 0 <= values[i] < Pow2(width)
  }

  /** The number that groups of `width` bits write. */
  function Number(values: seq<int>, width: nat): int {
    if values == [] then 0
    else ShiftLeft(Number(values[..|values| - 1], width), width) + values[|values| - 1]
  }

  /** The lowest `count` groups of `width` bits of a number. */
  function Digits(n: int, width: nat, count: nat): (r: seq<int>)
    ensures |r| == count
    decreases count
  {
    if count == 0 then [] else Digits(ShiftRight(n, width), width, count - 1) + [Mask(n, width)]
  }

  lemma {:induction false} DigitsFit(n: int, width: nat, count: nat)
    ensures Fits(Digits(n, width, count), width)
    decreases count
  {
    hide ShiftLeft, ShiftRight, Mask, Pow2;
    if count > 0 {
      DigitsFit(ShiftRight(n, width), width, count - 1);
      SplitAt(n, width);
    }
  }

  lemma {:induction false} NumberFits(values: seq<int>, width: nat)
    requires Fits(values, width)
    ensures 0 <= Number(values, width) < Pow2(|values| * width)
  {
    hide ShiftLeft, ShiftRight, Mask, Pow2;
    if values == [] {
      PowerOfZero();
    } else {
      var front := values[..|values| - 1];
      NumberFits(front, width);
      LeftStays(Number(front, width), |front| * width, width);
      OneMore(|front|, width);
    }
  }

  lemma PowerOfZero()
    ensures Pow2(0) == 1
  {
  }

  lemma OneMore(count: nat, width: nat)
    ensures (count + 1) * width == count * width + width
  {
  }

  /** Reading groups and writing them again changes nothing. */
  lemma {:induction false} DigitsOfNumber(values: seq<int>, width: nat)
    requires Fits(values, width)
    ensures Digits(Number(values, width), width, |values|) == values
  {
    hide ShiftLeft, ShiftRight, Mask, Pow2;
    if values != [] {
      var front, last := values[..|values| - 1], values[|values| - 1];
      DigitsOfNumber(front, width);
      SplitOnce(Number(values, width), width, Number(front, width), last);
      assert values == front + [last];
    }
  }

  lemma {:induction false} NumberOfDigits(n: int, width: nat, count: nat)
    requires 0 <= n < Pow2(count * width)
    ensures Number(Digits(n, width, count), width) == n
    decreases count
  {
    hide ShiftLeft, ShiftRight, Mask, Pow2;
    if count == 0 {
      PowerOfZero();
      assert n == 0;
    } else {
      OneMore(count - 1, width);
      SplitAt(n, width);
      RightStays(n, (count - 1) * width, width);
      NumberOfDigits(ShiftRight(n, width), width, count - 1);
      var d := Digits(n, width, count);
      assert d[..count - 1] == Digits(ShiftRight(n, width), width, count - 1);
    }
  }

  lemma RightStays(n: int, j: nat, k: nat)
    requires 0 <= n < Pow2(j + k)
    ensures 0 <= ShiftRight(n, k) < Pow2(j)
  {
    hide ShiftLeft, ShiftRight, Mask, Pow2;
    SplitTwice(n, k, j);
    ShiftByNothing(n);
    SplitAt(n, k);
    SplitOnce(n, j + k, 0, n) by { LeftOfZero(0, j + k); }
    SplitAt(ShiftRight(n, k), j);
  }

  // ----- convertBits --------------------------------------------------------------------------

  /** How many groups of `to` bits hold `bits` bits. */
  function GroupsFor(bits: nat, to: nat): nat
    requires to > 0
  {
    (bits + to - 1) / to
  }

  /** Zero bits that fill up the last group. */
  function Padding(bits: nat, to: nat): (r: nat)
    requires to > 0
    ensures r < to
  {
    if bits % to == 0 then 0 else to - bits % to
  }

  /**
   * The same bit string in groups of `to` bits: with padding, filled up with zero bits at the end; without,
   * only if what is left over is all zero and shorter than a source group.
   */
  function Regroup(values: seq<int>, from: nat, to: nat, pad: bool): Option<seq<int>>
    requires to > 0
  {
    var n, bits := Number(values, from), |values| * from;
    if !Fits(values, from) then None
    else if pad then Some(Digits(ShiftLeft(n, Padding(bits, to)), to, GroupsFor(bits, to)))
    else if bits % to >= from || Mask(n, bits % to) != 0 then None
    else Some(Digits(ShiftRight(n, bits % to), to, bits / to))
  }

  lemma Euclid(bits: nat, to: nat)
    requires to > 0
    ensures bits == (bits / to) * to + bits % to
  {
  }

  lemma GroupsCount(bits: nat, to: nat, count: nat, rest: nat)
    requires to > 0 && bits == count * to + rest && rest < to
    ensures bits / to == count && bits % to == rest
    ensures GroupsFor(bits, to) == if rest == 0 then count else count + 1
    ensures Padding(bits, to) == if rest == 0 then 0 else to - rest
  {
    Divided(bits, to, count, rest);
    if rest == 0 {
      Divided(bits + to - 1, to, count, to - 1);
    } else {
      OneMore(count, to);
      Divided(bits + to - 1, to, count + 1, rest - 1);
    }
  }

  lemma Divided(n: int, d: int, q: int, r: int)
    requires d > 0 && n == q * d + r && 0 <= r < d
    ensures n / d == q && n % d == r
  {
    var p, s := n / d, n % d;
    DividedAgain(n, d);
    Distribute(p - q, q, d);
    Between(d, p - q);
  }

  lemma DividedAgain(n: int, d: int)
    requires d > 0
    ensures n == (n / d) * d + n % d && 0 <= n % d < d
  {
  }

  method ConvertBits(values: seq<int>, from: nat, to: nat, pad: bool) returns (r: Option<seq<int>>)
    requires 1 <= from <= 8 && 1 <= to <= 8
    ensures r == Regroup(values, from, to, pad)
  {
    hide ShiftLeft, ShiftRight, Mask, Pow2, GroupsFor, Padding;
    var accumulator: int, bits: nat := 0, 0;
    var result: seq<int> := [];
    var i := 0;
    StartsEmpty(from + to - 1);
    while i < |values|
      invariant 0 <= i <= |values| && Fits(values[..i], from)
      invariant bits < to && i * from == |result| * to + bits
      invariant accumulator == Mask(Number(values[..i], from), from + to - 1)
      invariant result == Digits(ShiftRight(Number(values[..i], from), bits), to, |result|)
    {
      var value := values[i];
      FitsOneGroup(value, from);
      if value < 0 || ShiftRight(value, from) != 0 {
        return None;
      }
      ghost var n := Number(values[..i], from);
      ghost var m := Number(values[..i + 1], from);
      assert values[..i + 1][..i] == values[..i];
      Appended(n, from, value, bits);
      AppendedTruncated(n, from + to - 1, from, value);
      OneMore(i, from);
      accumulator := Mask(ShiftLeft(accumulator, from) + value, from + to - 1);
      bits := bits + from;
      while bits >= to
        invariant bits < to + from && (i + 1) * from == |result| * to + bits
        invariant result == Digits(ShiftRight(m, bits), to, |result|)
      {
        bits := bits - to;
        OneMore(|result|, to);
        GroupOfTruncated(m, from + to - 1, bits, to);
        SplitTwice(m, bits, to);
        result := result + [Mask(ShiftRight(accumulator, bits), to)];
      }
      i := i + 1;
    }
    assert values[..i] == values;
    ghost var n := Number(values, from);
    GroupsCount(|values| * from, to, |result|, bits);
    GroupOfTruncated(n, from + to - 1, bits, 0);
    MovedUp(accumulator, bits, to);
    MovedUp(n, bits, to);
    ShiftByNothing(n);
    if pad {
      if bits > 0 {
        result := result + [Mask(ShiftLeft(accumulator, to - bits), to)];
      }
    } else if bits >= from || Mask(ShiftLeft(accumulator, to - bits), to) != 0 {
      return None;
    }
    return Some(result);
  }

  lemma StartsEmpty(m: nat)
    ensures Mask(0, m) == 0
  {
    hide Pow2;
    SplitOnce(0, m, 0, 0);
  }

  lemma FitsOneGroup(value: int, from: nat)
    ensures value >= 0 && ShiftRight(value, from) == 0 <==> 0 <= value < Pow2(from)
  {
    hide ShiftLeft, ShiftRight, Mask, Pow2;
    SplitAt(value, from);
    LeftOfZero(0, from);
    if 0 <= value < Pow2(from) {
      SplitOnce(value, from, 0, value);
    }
  }

  /** Padding to smaller groups and regrouping back gives the same groups. */
  lemma NarrowThenWiden(values: seq<int>, wide: nat, narrow: nat)
    requires Fits(values, wide) && 0 < narrow <= wide
    ensures Regroup(values, wide, narrow, true).Some?
    ensures Fits(Regroup(values, wide, narrow, true).value, narrow)
    ensures |Regroup(values, wide, narrow, true).value| == GroupsFor(|values| * wide, narrow)
    ensures Regroup(Regroup(values, wide, narrow, true).value, narrow, wide, false) == Some(values)
  {
    hide ShiftLeft, ShiftRight, Mask, Pow2, GroupsFor, Padding;
    var n, bits := Number(values, wide), |values| * wide;
    var padding, count := Padding(bits, narrow), GroupsFor(bits, narrow);
    var w := Digits(ShiftLeft(n, padding), narrow, count);
    DigitsFit(ShiftLeft(n, padding), narrow, count);
    PaddingFills(bits, narrow);
    NumberFits(values, wide);
    LeftStays(n, bits, padding);
    NumberOfDigits(ShiftLeft(n, padding), narrow, count);
    GroupsCount(count * narrow, wide, |values|, padding);
    SplitOnce(ShiftLeft(n, padding), padding, n, 0);
    DigitsOfNumber(values, wide);
  }

  lemma PaddingFills(bits: nat, to: nat)
    requires to > 0
    ensures GroupsFor(bits, to) * to == bits + Padding(bits, to)
  {
    Euclid(bits, to);
    GroupsCount(bits, to, bits / to, bits % to);
    OneMore(bits / to, to);
  }

  /** Groups that regroup without padding are the padded groups of the result. */
  lemma WidenThenNarrow(groups: seq<int>, narrow: nat, wide: nat)
    requires 0 < narrow <= wide && Regroup(groups, narrow, wide, false).Some?
    ensures Fits(Regroup(groups, narrow, wide, false).value, wide)
    ensures Regroup(Regroup(groups, narrow, wide, false).value, wide, narrow, true) == Some(groups)
  {
    hide ShiftLeft, ShiftRight, Mask, Pow2, GroupsFor, Padding;
    var n, bits := Number(groups, narrow), |groups| * narrow;
    var count, rest := bits / wide, bits % wide;
    var v := Digits(ShiftRight(n, rest), wide, count);
    DigitsFit(ShiftRight(n, rest), wide, count);
    NumberFits(groups, narrow);
    Euclid(bits, wide);
    RightStays(n, count * wide, rest);
    NumberOfDigits(ShiftRight(n, rest), wide, count);
    SplitAt(n, rest);
    PaddedBack(|groups|, narrow, count * wide, rest);
    DigitsOfNumber(groups, narrow);
  }

  lemma PaddedBack(count: nat, narrow: nat, bits: nat, rest: nat)
    requires narrow > 0 && count * narrow == bits + rest && rest < narrow
    ensures GroupsFor(bits, narrow) == count && Padding(bits, narrow) == rest
  {
    if rest == 0 {
      GroupsCount(bits, narrow, count, 0);
    } else {
      PositiveCount(count, narrow);
      OneMore(count - 1, narrow);
      GroupsCount(bits, narrow, count - 1, narrow - rest);
    }
  }

  lemma PositiveCount(count: nat, narrow: nat)
    requires count * narrow > 0
    ensures count > 0
  {
  }
}
