/**
 * Two replaced symbols always change the Bech32 checksum, up to 60 places apart: the difference that the first
 * one makes, carried on step by step, never shrinks back to a single symbol.
 */
module Distance {
  import opened Checksum

  /** What a difference between two states becomes when both are fed the same symbol. */
  function Carry(d: Word): Word {
    Xor((d & 0x1ffffff) << 5, Generator(d >> 25))
  }

  function Drift(d: Word, n: nat): Word {
    if n == 0 then d else Carry(Drift(d, n - 1))
  }

  // ----- a step is linear ---------------------------------------------------------------------

  lemma XorCommutes(a: Word, b: Word)
    ensures Xor(a, b) == Xor(b, a)
  {
  }

  lemma XorSwaps(a: Word, b: Word, c: Word, d: Word)
    ensures Xor(Xor(a, b), Xor(c, d)) == Xor(Xor(a, c), Xor(b, d))
  {
    hide Xor;
    XorAssociates(Xor(a, b), c, d);
    XorAssociates(a, b, c);
    XorCommutes(b, c);
    XorAssociates(a, c, b);
    XorAssociates(Xor(a, c), b, d);
  }

  lemma PartsAreLinear(a: Word, b: Word)
    ensures Top(Xor(a, b)) == Xor(Top(a), Top(b)) && Low(Xor(a, b)) == Xor(Low(a), Low(b))
  {
  }

  lemma PickIsLinear(a: Word, b: Word, n: nat)
    requires n < 5
    ensures IsPicked(Xor(a, b), n) <==> IsPicked(a, n) != IsPicked(b, n)
  {
    hide IsPicked, Xor, HasBit;
    XorIs(a, b);
    BitOfXor1(a, b);
    BitOfXor2(a, b);
    BitOfXor4(a, b);
    BitOfXor8(a, b);
    BitOfXor16(a, b);
    PickedIsBit(a);
    PickedIsBit(b);
    PickedIsBit(a ^ b);
  }

  predicate HasBit(a: Word, mask: Word) {
    a & mask != 0
  }

  lemma BitOfXor1(a: Word, b: Word)
    ensures HasBit(a ^ b, 1) <==> HasBit(a, 1) != HasBit(b, 1)
  {
  }

  lemma BitOfXor2(a: Word, b: Word)
    ensures HasBit(a ^ b, 2) <==> HasBit(a, 2) != HasBit(b, 2)
  {
  }

  lemma BitOfXor4(a: Word, b: Word)
    ensures HasBit(a ^ b, 4) <==> HasBit(a, 4) != HasBit(b, 4)
  {
  }

  lemma BitOfXor8(a: Word, b: Word)
    ensures HasBit(a ^ b, 8) <==> HasBit(a, 8) != HasBit(b, 8)
  {
  }

  lemma BitOfXor16(a: Word, b: Word)
    ensures HasBit(a ^ b, 16) <==> HasBit(a, 16) != HasBit(b, 16)
  {
  }

  lemma XorIs(a: Word, b: Word)
    ensures Xor(a, b) == a ^ b
  {
  }

  lemma PickedIsBit(a: Word)
    ensures IsPicked(a, 0) <==> HasBit(a, 1)
    ensures IsPicked(a, 1) <==> HasBit(a, 2)
    ensures IsPicked(a, 2) <==> HasBit(a, 4)
    ensures IsPicked(a, 3) <==> HasBit(a, 8)
    ensures IsPicked(a, 4) <==> HasBit(a, 16)
  {
  }

  function Choice(top: Word, n: nat): Word
    requires n < 5
  {
    if IsPicked(top, n) then GENERATORS[n] else 0
  }

  lemma XorCases(g: Word)
    ensures Xor(g, g) == 0 && Xor(g, 0) == g && Xor(0, g) == g && Xor(0, 0) == 0
  {
  }

  lemma ChoiceIsLinear(a: Word, b: Word, n: nat)
    requires n < 5
    ensures Choice(Xor(a, b), n) == Xor(Choice(a, n), Choice(b, n))
  {
    hide Xor, IsPicked;
    PickIsLinear(a, b, n);
    XorCases(GENERATORS[n]);
  }

  lemma {:induction false} PickedIsLinear(a: Word, b: Word, n: nat)
    requires n <= 5
    ensures Picked(Xor(a, b), n) == Xor(Picked(a, n), Picked(b, n))
  {
    hide Xor, IsPicked, Choice, Picked;
    if n == 0 {
      PickedNone(a);
      PickedNone(b);
      PickedNone(Xor(a, b));
      XorCases(0);
    } else {
      PickedIsLinear(a, b, n - 1);
      PickedChoice(a, n - 1);
      PickedChoice(b, n - 1);
      PickedChoice(Xor(a, b), n - 1);
      ChoiceIsLinear(a, b, n - 1);
      XorSwaps(Picked(a, n - 1), Picked(b, n - 1), Choice(a, n - 1), Choice(b, n - 1));
    }
  }

  lemma PickedChoice(top: Word, n: nat)
    requires n < 5
    ensures Picked(top, n + 1) == Xor(Picked(top, n), Choice(top, n))
  {
    hide Xor, IsPicked, Picked;
    PickedNext(top, n);
  }

  lemma GeneratorIsLinear(a: Word, b: Word)
    ensures Generator(Xor(a, b)) == Xor(Generator(a), Generator(b))
  {
    hide Xor, Picked, Generator;
    PickedIsLinear(a, b, 5);
    AllPicked(a);
    AllPicked(b);
    AllPicked(Xor(a, b));
  }

  lemma CarryIs(d: Word)
    ensures Carry(d) == Xor(Low(d), Generator(Top(d)))
  {
    hide Generator, Xor;
  }

  /** States that differ by `d`, fed symbols that differ by `e`, differ by the carried `d` and by `e`. */
  lemma StepIsLinear(c: Word, d: Word, v: Word, e: Word)
    ensures Step(Xor(c, d), Xor(v, e)) == Xor(Step(c, v), Xor(Carry(d), e))
  {
    hide Xor, Low, Top, Generator, Carry;
    CarryIs(d);
    PartsAreLinear(c, d);
    GeneratorIsLinear(Top(c), Top(d));
    var gc, gd := Generator(Top(c)), Generator(Top(d));
    XorSwaps(Low(c), Low(d), v, e);
    XorSwaps(Xor(Low(c), v), Xor(Low(d), e), gc, gd);
    XorAssociates(Low(d), e, gd);
    XorCommutes(e, gd);
    XorAssociates(Low(d), gd, e);
  }

  // ----- one symbol never fades ---------------------------------------------------------------

  /** One row for each of the five bits of a symbol. */
  function Combined(d: Word, r0: Word, r1: Word, r2: Word, r3: Word, r4: Word): Word {
    (if d & 1 != 0 then r0 else 0) ^ (if d & 2 != 0 then r1 else 0) ^ (if d & 4 != 0 then r2 else 0) ^
    (if d & 8 != 0 then r3 else 0) ^ (if d & 16 != 0 then r4 else 0)
  }

  // What a symbol has become after 12, 24, 36 and 48 steps.

  function After12(d: Word): Word {
    Combined(d, 0x1df21f0a, 0x39743b34, 0x22787361, 0x16e4c7e2, 0x2dc92ee4)
  }

  function After24(d: Word): Word {
    Combined(d, 0x3c1fc3a8, 0x2a2ba670, 0x643c9e9, 0xc8737d2, 0x190e6aad)
  }

  function After36(d: Word): Word {
    Combined(d, 0x18efd0de, 0x31cb8595, 0x33138b03, 0x36b71326, 0x3f6e236c)
  }

  function After48(d: Word): Word {
    Combined(d, 0x20d4cef0, 0x13a93ce9, 0x25d6f9d2, 0x1b3d578d, 0x34fe8e3a)
  }

  ghost predicate IsOrbit(x: seq<Word>) {
    |x| == 13 && forall i :: 1 <= i < 13 ==> x[i] == Carry(x[i - 1])
  }

  /** From the second on, none of the words is a single symbol. */
  ghost predicate StaysWide(x: seq<Word>)
    requires |x| == 13
  {
    forall i :: 1 <= i < 13 ==> !Is5Bits(x[i])
  }

  lemma First12(d: Word, x: seq<Word>)
    requires Is5Bits(d) && d != 0 && IsOrbit(x) && x[0] == d
    ensures StaysWide(x) && x[12] == After12(d)
  {
    assert !Is5Bits(x[1]);
    assert !Is5Bits(x[2]);
    assert !Is5Bits(x[3]);
    assert !Is5Bits(x[4]);
    assert !Is5Bits(x[5]);
    assert !Is5Bits(x[6]);
    assert !Is5Bits(x[7]);
    assert !Is5Bits(x[8]);
    assert !Is5Bits(x[9]);
    assert !Is5Bits(x[10]);
    assert !Is5Bits(x[11]);
    assert !Is5Bits(x[12]);
  }

  lemma Second12(d: Word, x: seq<Word>)
    requires Is5Bits(d) && d != 0 && IsOrbit(x) && x[0] == After12(d)
    ensures StaysWide(x) && x[12] == After24(d)
  {
    assert !Is5Bits(x[1]);
    assert !Is5Bits(x[2]);
    assert !Is5Bits(x[3]);
    assert !Is5Bits(x[4]);
    assert !Is5Bits(x[5]);
    assert !Is5Bits(x[6]);
    assert !Is5Bits(x[7]);
    assert !Is5Bits(x[8]);
    assert !Is5Bits(x[9]);
    assert !Is5Bits(x[10]);
    assert !Is5Bits(x[11]);
    assert !Is5Bits(x[12]);
  }

  lemma Third12(d: Word, x: seq<Word>)
    requires Is5Bits(d) && d != 0 && IsOrbit(x) && x[0] == After24(d)
    ensures StaysWide(x) && x[12] == After36(d)
  {
    assert !Is5Bits(x[1]);
    assert !Is5Bits(x[2]);
    assert !Is5Bits(x[3]);
    assert !Is5Bits(x[4]);
    assert !Is5Bits(x[5]);
    assert !Is5Bits(x[6]);
    assert !Is5Bits(x[7]);
    assert !Is5Bits(x[8]);
    assert !Is5Bits(x[9]);
    assert !Is5Bits(x[10]);
    assert !Is5Bits(x[11]);
    assert !Is5Bits(x[12]);
  }

  lemma Fourth12(d: Word, x: seq<Word>)
    requires Is5Bits(d) && d != 0 && IsOrbit(x) && x[0] == After36(d)
    ensures StaysWide(x) && x[12] == After48(d)
  {
    assert !Is5Bits(x[1]);
    assert !Is5Bits(x[2]);
    assert !Is5Bits(x[3]);
    assert !Is5Bits(x[4]);
    assert !Is5Bits(x[5]);
    assert !Is5Bits(x[6]);
    assert !Is5Bits(x[7]);
    assert !Is5Bits(x[8]);
    assert !Is5Bits(x[9]);
    assert !Is5Bits(x[10]);
    assert !Is5Bits(x[11]);
    assert !Is5Bits(x[12]);
  }

  lemma Fifth12(d: Word, x: seq<Word>)
    requires Is5Bits(d) && d != 0 && IsOrbit(x) && x[0] == After48(d)
    ensures StaysWide(x)
  {
    assert !Is5Bits(x[1]);
    assert !Is5Bits(x[2]);
    assert !Is5Bits(x[3]);
    assert !Is5Bits(x[4]);
    assert !Is5Bits(x[5]);
    assert !Is5Bits(x[6]);
    assert !Is5Bits(x[7]);
    assert !Is5Bits(x[8]);
    assert !Is5Bits(x[9]);
    assert !Is5Bits(x[10]);
    assert !Is5Bits(x[11]);
    assert !Is5Bits(x[12]);
  }

  ghost function OrbitFrom(d: Word, start: nat): seq<Word> {
    seq(13, i requires 0 <= i < 13 => Drift(d, start + i))
  }

  lemma OrbitFollows(d: Word, start: nat)
    ensures IsOrbit(OrbitFrom(d, start)) && forall i :: 0 <= i < 13 ==> OrbitFrom(d, start)[i] == Drift(d, start + i)
  {
    hide Carry;
    var x := OrbitFrom(d, start);
    forall i | 1 <= i < 13
      ensures x[i] == Carry(x[i - 1])
    {
      assert Drift(d, start + i) == Carry(Drift(d, start + i - 1));
    }
  }

  /** Up to 60 steps on, a difference of one symbol is not again a difference of one symbol. */
  lemma SymbolNeverFades(d: Word, n: nat)
    requires Is5Bits(d) && d != 0 && 0 < n <= 60
    ensures !Is5Bits(Drift(d, n))
  {
    hide Is5Bits, Drift, Carry, After12, After24, After36, After48, IsOrbit;
    DriftStarts(d);
    OrbitFollows(d, 0);
    OrbitFollows(d, 12);
    OrbitFollows(d, 24);
    OrbitFollows(d, 36);
    OrbitFollows(d, 48);
    First12(d, OrbitFrom(d, 0));
    Second12(d, OrbitFrom(d, 12));
    Third12(d, OrbitFrom(d, 24));
    Fourth12(d, OrbitFrom(d, 36));
    Fifth12(d, OrbitFrom(d, 48));
    var start := if n <= 12 then 0 else if n <= 24 then 12 else if n <= 36 then 24 else if n <= 48 then 36 else 48;
    assert OrbitFrom(d, start)[n - start] == Drift(d, n);
  }

  lemma DriftStarts(d: Word)
    ensures Drift(d, 0) == d
  {
  }

  // ----- two symbols --------------------------------------------------------------------------

  lemma {:induction false} FeedDrifts(c: Word, d: Word, values: seq<int>)
    ensures Feed(Xor(c, d), values) == Xor(Feed(c, values), Drift(d, |values|))
  {
    hide Step, Xor, Carry, WordOf;
    if values != [] {
      var n := |values| - 1;
      FeedDrifts(c, d, values[..n]);
      var v := WordOf(values[n]);
      StepIsLinear(Feed(c, values[..n]), Drift(d, n), v, 0);
      XorCases(v);
      XorCases(Carry(Drift(d, n)));
    }
  }

  lemma CarryNothing()
    ensures Carry(0) == 0
  {
  }

  /** A replaced symbol changes the next state by the difference of the symbols. */
  lemma StepShifts(c: Word, v: Word, e: Word)
    ensures Step(c, Xor(v, e)) == Xor(Step(c, v), e)
  {
    hide Step, Xor, Carry;
    StepIsLinear(c, 0, v, e);
    CarryNothing();
    XorCases(c);
    XorCases(e);
  }

  lemma DifferenceOf(a: int, b: int)
    requires IsSymbol(a) && IsSymbol(b) && a != b
    ensures Is5Bits(Xor(WordOf(a), WordOf(b))) && Xor(WordOf(a), WordOf(b)) != 0
    ensures WordOf(b) == Xor(WordOf(a), Xor(WordOf(a), WordOf(b)))
  {
    hide WordOf, SymbolOf;
    WordIsSmall(a);
    WordIsSmall(b);
    WordReadsBack(a);
    WordReadsBack(b);
    WordsDiffer(WordOf(a), WordOf(b));
  }

  lemma WordsDiffer(a: Word, b: Word)
    requires Is5Bits(a) && Is5Bits(b) && a != b
    ensures Is5Bits(Xor(a, b)) && Xor(a, b) != 0 && b == Xor(a, Xor(a, b))
  {
  }

  lemma StillDiffer(s: Word, d: Word, e: Word)
    requires d != e
    ensures Xor(s, Xor(d, e)) != s
  {
  }

  /** Replacing two symbols at most 60 places apart changes the checksum. */
  lemma TwoSymbolsShow(values: seq<int>, i: nat, v: int, j: nat, w: int)
    requires Symbols(values) && i < j < |values| && j - i <= 60
    requires IsSymbol(v) && v != values[i] && IsSymbol(w) && w != values[j]
    ensures Feed(1, values[i := v][j := w]) != Feed(1, values)
  {
    hide Feed, Step, WordOf, Is30Bits, Is5Bits, IsSymbol, Xor, Drift, Carry;
    var front, middle, rest := values[..i], values[i + 1..j], values[j + 1..];
    var e, f := Xor(WordOf(values[i]), WordOf(v)), Xor(WordOf(values[j]), WordOf(w));
    DifferenceOf(values[i], v);
    DifferenceOf(values[j], w);
    var c := Feed(1, front);
    FeedOne(c, values[i]);
    FeedOne(c, v);
    StepShifts(c, WordOf(values[i]), e);
    var one := Feed(c, [values[i]]);
    FeedDrifts(one, e, middle);
    var two, d := Feed(one, middle), Drift(e, |middle|);
    FeedOne(two, values[j]);
    FeedOne(Xor(two, d), w);
    StepIsLinear(two, d, WordOf(values[j]), f);
    DriftStep(e, |middle|);
    SymbolNeverFades(e, |middle| + 1);
    assert Carry(d) != f;
    StillDiffer(Step(two, WordOf(values[j])), Carry(d), f);
    Splits(values, i, j);
    Splits(values[i := v][j := w], i, j);
    assert values[i := v][j := w][..i] == front && values[i := v][j := w][i + 1..j] == middle;
    assert values[i := v][j := w][j + 1..] == rest;
    RestKeepsApart(front + [values[i]] + middle + [values[j]], front + [v] + middle + [w], rest);
    FeedFour(front, values[i], middle, values[j]);
    FeedFour(front, v, middle, w);
  }

  lemma DriftStep(d: Word, n: nat)
    ensures Drift(d, n + 1) == Carry(Drift(d, n))
  {
  }

  lemma Splits(values: seq<int>, i: nat, j: nat)
    requires i < j < |values|
    ensures values == values[..i] + [values[i]] + values[i + 1..j] + [values[j]] + values[j + 1..]
  {
  }

  lemma FeedFour(front: seq<int>, v: int, middle: seq<int>, w: int)
    ensures Feed(1, front + [v] + middle + [w]) == Feed(Feed(Feed(Feed(1, front), [v]), middle), [w])
  {
    hide Feed;
    FeedInParts(1, front, [v]);
    FeedInParts(1, front + [v], middle);
    FeedInParts(1, front + [v] + middle, [w]);
  }

  lemma RestKeepsApart(a: seq<int>, b: seq<int>, rest: seq<int>)
    ensures Feed(1, a) != Feed(1, b) ==> Feed(1, a + rest) != Feed(1, b + rest)
  {
    hide Feed, Is30Bits;
    OneIs30Bits();
    FeedStays(1, a);
    FeedStays(1, b);
    FeedInParts(1, a, rest);
    FeedInParts(1, b, rest);
    if Feed(1, a + rest) == Feed(1, b + rest) {
      FeedIsInjective(Feed(1, a), Feed(1, b), rest);
    }
  }
}
