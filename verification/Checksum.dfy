/**
 * The Bech32 checksum (`polymod`, src/api/carrier-address.ts), on the 32-bit words the source uses.
 * Every step is a bijection of the 30-bit state, and the last six symbols are fixed by the others.
 */
module Checksum {

  type Word = bv32

  function Xor(a: Word, b: Word): Word {
    a ^ b
  }

  const GENERATORS: seq<Word> := [0x3b6a57b2, 0x26508e6d, 0x1ea119fa, 0x3d4233dd, 0x2a1462b3]

  /** The generators picked by the five bits that leave the state. */
  function Generator(top: Word): Word {
    (if top & 1 != 0 then 0x3b6a57b2 else 0) ^
    (if (top >> 1) & 1 != 0 then 0x26508e6d else 0) ^
    (if (top >> 2) & 1 != 0 then 0x1ea119fa else 0) ^
    (if (top >> 3) & 1 != 0 then 0x3d4233dd else 0) ^
    (if (top >> 4) & 1 != 0 then 0x2a1462b3 else 0)
  }

  function Top(c: Word): Word {
    c >> 25
  }

  function Low(c: Word): Word {
    (c & 0x1ffffff) << 5
  }

  function Step(c: Word, v: Word): Word {
    Xor(Xor(Low(c), v), Generator(Top(c)))
  }

  predicate Is30Bits(c: Word) {
    c < 0x4000_0000
  }

  predicate Is25Bits(c: Word) {
    c < 0x200_0000
  }

  predicate Is5Bits(c: Word) {
    c < 32
  }

  // ----- one step -----------------------------------------------------------------------------

  function Last5(c: Word): Word {
    c & 31
  }

  lemma GeneratorsDiffer(a: Word, b: Word)
    requires Is5Bits(a) && Is5Bits(b) && Last5(Generator(a)) == Last5(Generator(b))
    ensures a == b
  {
  }

  lemma LastOfXor(a: Word, b: Word)
    ensures Last5(Xor(a, b)) == Xor(Last5(a), Last5(b))
  {
  }

  lemma LowIsShifted(c: Word)
    ensures Last5(Low(c)) == 0
  {
  }

  lemma XorCancels(a: Word, b: Word)
    ensures Xor(Xor(a, b), b) == a && Xor(Xor(b, a), b) == a && Xor(a, Xor(a, b)) == b
  {
  }

  lemma HalvesDecide(c: Word, d: Word)
    requires Top(c) == Top(d) && Low(c) == Low(d) && Is30Bits(c) && Is30Bits(d)
    ensures c == d
  {
  }

  lemma TopIsSmall(c: Word)
    requires Is30Bits(c)
    ensures Is5Bits(Top(c))
  {
  }

  /** The last five bits of a step tell which generators it used. */
  lemma StepLast(c: Word, v: Word)
    ensures Last5(Generator(Top(c))) == Xor(Xor(0, Last5(v)), Last5(Step(c, v)))
  {
    hide Generator, Top, Low, Xor, Last5;
    LowIsShifted(c);
    LastOfXor(Low(c), v);
    LastOfXor(Xor(Low(c), v), Generator(Top(c)));
    XorCancels(Xor(0, Last5(v)), Last5(Generator(Top(c))));
  }

  /** For a fixed symbol, a step maps different 30-bit states to different ones. */
  lemma StepIsInjective(c: Word, d: Word, v: Word)
    requires Is30Bits(c) && Is30Bits(d) && Step(c, v) == Step(d, v)
    ensures c == d
  {
    hide Generator, Top, Low, Xor, Last5, Is30Bits, Is5Bits;
    StepLast(c, v);
    StepLast(d, v);
    TopIsSmall(c);
    TopIsSmall(d);
    GeneratorsDiffer(Top(c), Top(d));
    XorCancels(Xor(Low(c), v), Generator(Top(c)));
    XorCancels(Xor(Low(d), v), Generator(Top(d)));
    XorCancels(Low(c), v);
    XorCancels(Low(d), v);
    HalvesDecide(c, d);
  }

  /** From one state, different symbols lead to different states. */
  lemma StepSeparates(c: Word, v: Word, w: Word)
    requires Step(c, v) == Step(c, w)
    ensures v == w
  {
    hide Generator, Top, Low, Xor;
    XorCancels(Xor(Low(c), v), Generator(Top(c)));
    XorCancels(Xor(Low(c), w), Generator(Top(c)));
    XorCancels(Low(c), v);
    XorCancels(Low(c), w);
  }

  lemma StepStays(c: Word, v: Word)
    requires Is30Bits(c) && Is5Bits(v)
    ensures Is30Bits(Step(c, v))
  {
  }

  function Shift5(d: Word): Word {
    d << 5
  }

  lemma TopKept(c: Word, d: Word)
    requires Is25Bits(d)
    ensures Top(Xor(c, d)) == Top(c)
  {
  }

  lemma LowAdded(c: Word, d: Word)
    requires Is25Bits(d)
    ensures Low(Xor(c, d)) == Xor(Low(c), Shift5(d))
  {
  }

  lemma Reorder(s: Word, d: Word, v: Word, g: Word)
    ensures Xor(Xor(Xor(s, d), v), g) == Xor(Xor(Xor(s, 0), g), Xor(d, v))
  {
  }

  /** A difference in the low 25 bits is only shifted by a step. */
  lemma StepCarries(c: Word, d: Word, v: Word)
    requires Is25Bits(d)
    ensures Step(Xor(c, d), v) == Xor(Step(c, 0), Xor(Shift5(d), v))
  {
    hide Generator, Top, Low, Xor, Shift5, Is25Bits;
    TopKept(c, d);
    LowAdded(c, d);
    Reorder(Low(c), Shift5(d), v, Generator(Top(c)));
  }

  // ----- symbols ------------------------------------------------------------------------------

  predicate IsSymbol(v: int) {
    0 <= v < 32
  }

  predicate Symbols(values: seq<int>) {
    forall i :: 0 <= i < |values| ==> IsSymbol(values[i])
  }

  predicate Odd(v: int) {
    v % 2 == 1
  }

  /** A symbol as a word, bit by bit. */
  function WordOf(v: int): Word {
    (if Odd(v) then 1 else 0) | (if Odd(v / 2) then 2 else 0) | (if Odd(v / 4) then 4 else 0) |
    (if Odd(v / 8) then 8 else 0) | (if Odd(v / 16) then 16 else 0)
  }

  /** A word below 32 as a symbol, bit by bit. */
  function SymbolOf(w: Word): (v: int)
    ensures IsSymbol(v)
  {
    (if w & 1 != 0 then 1 else 0) + (if w & 2 != 0 then 2 else 0) + (if w & 4 != 0 then 4 else 0) +
    (if w & 8 != 0 then 8 else 0) + (if w & 16 != 0 then 16 else 0)
  }

  /** The five bits of a word at an offset. */
  function Piece(r: Word, k: nat): Word
    requires k <= 25
  {
    (r >> k) & 31
  }

  lemma PieceIsSmall(r: Word, k: nat)
    requires k <= 25
    ensures Is5Bits(Piece(r, k))
  {
  }

  lemma WordIsSmall(v: int)
    ensures Is5Bits(WordOf(v))
  {
  }

  lemma WordReadsBack(v: int)
    requires IsSymbol(v)
    ensures SymbolOf(WordOf(v)) == v
  {
  }

  lemma SymbolReadsBack(w: Word)
    requires Is5Bits(w)
    ensures WordOf(SymbolOf(w)) == w
  {
  }

  // ----- polymod ------------------------------------------------------------------------------

  /** The state after feeding symbols into state `c`. */
  function Feed(c: Word, values: seq<int>): Word {
    if values == [] then c
    else Step(Feed(c, values[..|values| - 1]), WordOf(values[|values| - 1]))
  }

  predicate IsPicked(top: Word, n: nat)
    requires n < 5
  {
    (top >> n) & 1 != 0
  }

  /** The first `n` generators picked by `top`. */
  function Picked(top: Word, n: nat): Word
    requires n <= 5
  {
    if n == 0 then 0
    else Xor(Picked(top, n - 1), if IsPicked(top, n - 1) then GENERATORS[n - 1] else 0)
  }

  lemma AllPicked(top: Word)
    ensures Picked(top, 5) == Generator(top)
  {
    hide Picked;
    PickedNone(top);
    PickedNext(top, 0);
    PickedNext(top, 1);
    PickedNext(top, 2);
    PickedNext(top, 3);
    PickedNext(top, 4);
  }

  method Polymod(values: seq<int>) returns (checksum: Word)
    requires Symbols(values)
    ensures checksum == Feed(1, values)
  {
    hide Generator, Top, Low, Xor, Picked, IsPicked, WordOf;
    checksum := 1;
    for i := 0 to |values|
      invariant checksum == Feed(1, values[..i])
    {
      ghost var before := checksum;
      var top := Top(checksum);
      checksum := Xor(Low(checksum), WordOf(values[i]));
      ghost var mixed := checksum;
      NothingPicked(top, mixed);
      for index := 0 to 5
        invariant checksum == Xor(mixed, Picked(top, index))
      {
        PickNext(top, index, mixed);
        if IsPicked(top, index) {
          checksum := Xor(checksum, GENERATORS[index]);
        }
      }
      AllPicked(top);
      assert values[..i + 1][..i] == values[..i];
    }
    assert values[..|values|] == values;
  }

  lemma PickedNone(top: Word)
    ensures Picked(top, 0) == 0
  {
  }

  lemma NothingPicked(top: Word, mixed: Word)
    ensures Xor(mixed, Picked(top, 0)) == mixed
  {
  }

  lemma PickNext(top: Word, n: nat, mixed: Word)
    requires n < 5
    ensures Xor(mixed, Picked(top, n + 1)) ==
            if IsPicked(top, n) then Xor(Xor(mixed, Picked(top, n)), GENERATORS[n])
            else Xor(mixed, Picked(top, n))
  {
    hide Xor, Picked, IsPicked;
    PickedNext(top, n);
    XorWithZero(Picked(top, n));
    XorAssociates(mixed, Picked(top, n), GENERATORS[n]);
  }

  lemma PickedNext(top: Word, n: nat)
    requires n < 5
    ensures Picked(top, n + 1) == Xor(Picked(top, n), if IsPicked(top, n) then GENERATORS[n] else 0)
  {
    hide Xor, IsPicked;
  }

  lemma XorWithZero(a: Word)
    ensures Xor(a, 0) == a
  {
  }

  lemma XorAssociates(a: Word, b: Word, c: Word)
    ensures Xor(a, Xor(b, c)) == Xor(Xor(a, b), c)
  {
  }

  lemma {:induction false} FeedInParts(c: Word, first: seq<int>, rest: seq<int>)
    ensures Feed(c, first + rest) == Feed(Feed(c, first), rest)
  {
    hide Step, WordOf;
    if rest == [] {
      assert first + rest == first;
    } else {
      var n := |rest| - 1;
      FeedInParts(c, first, rest[..n]);
      assert (first + rest)[..|first| + n] == first + rest[..n];
    }
  }

  lemma {:induction false} FeedStays(c: Word, values: seq<int>)
    requires Is30Bits(c)
    ensures Is30Bits(Feed(c, values))
  {
    hide Step, WordOf, Is30Bits, Is5Bits;
    if values != [] {
      var n := |values| - 1;
      FeedStays(c, values[..n]);
      WordIsSmall(values[n]);
      StepStays(Feed(c, values[..n]), WordOf(values[n]));
    }
  }

  /** Feeding the same symbols keeps different states apart. */
  lemma {:induction false} FeedIsInjective(c: Word, d: Word, values: seq<int>)
    requires Is30Bits(c) && Is30Bits(d) && Feed(c, values) == Feed(d, values)
    ensures c == d
  {
    hide Step, WordOf, Is30Bits;
    if values != [] {
      var n := |values| - 1;
      FeedStays(c, values[..n]);
      FeedStays(d, values[..n]);
      StepIsInjective(Feed(c, values[..n]), Feed(d, values[..n]), WordOf(values[n]));
      FeedIsInjective(c, d, values[..n]);
    }
  }

  /** Replacing one symbol changes the checksum, wherever it stands. */
  lemma OneSymbolShows(values: seq<int>, i: nat, v: int)
    requires Symbols(values) && i < |values| && IsSymbol(v) && v != values[i]
    ensures Feed(1, values[i := v]) != Feed(1, values)
  {
    hide Feed, Step, WordOf, Is30Bits, IsSymbol;
    var front, rest := values[..i], values[i + 1..];
    var c := Feed(1, front);
    FeedOne(c, values[i]);
    FeedOne(c, v);
    assert values == (front + [values[i]]) + rest;
    assert values[i := v] == (front + [v]) + rest;
    FeedInParts(1, front + [values[i]], rest);
    FeedInParts(1, front + [v], rest);
    FeedInParts(1, front, [values[i]]);
    FeedInParts(1, front, [v]);
    OneIs30Bits();
    FeedStays(1, front + [values[i]]);
    FeedStays(1, front + [v]);
    if Feed(1, values[i := v]) == Feed(1, values) {
      FeedIsInjective(Feed(1, front + [values[i]]), Feed(1, front + [v]), rest);
      StepSeparates(c, WordOf(values[i]), WordOf(v));
      WordReadsBack(v);
      WordReadsBack(values[i]);
      assert false;
    }
  }

  lemma FeedOne(c: Word, v: int)
    ensures Feed(c, [v]) == Step(c, WordOf(v))
  {
    hide Step, WordOf;
    assert [v][..0] == [];
  }

  lemma OneIs30Bits()
    ensures Is30Bits(1)
  {
  }

  // ----- the six checksum symbols -------------------------------------------------------------

  /** Symbols side by side in one word, five bits each. */
  function Packed(values: seq<int>): Word {
    if values == [] then 0
    else Xor(Shift5(Packed(values[..|values| - 1])), WordOf(values[|values| - 1]))
  }

  predicate IsPacked(w: Word, count: nat) {
    match count
    case 0 => w == 0
    case 1 => w < 0x20
    case 2 => w < 0x400
    case 3 => w < 0x8000
    case 4 => w < 0x10_0000
    case 5 => w < 0x200_0000
    case _ => w < 0x4000_0000
  }

  lemma PackOne(w: Word, v: Word, count: nat)
    requires count < 6 && IsPacked(w, count) && Is5Bits(v)
    ensures Is25Bits(w) && IsPacked(Xor(Shift5(w), v), count + 1)
  {
  }

  lemma {:induction false} PackedFits(values: seq<int>)
    requires |values| <= 6
    ensures IsPacked(Packed(values), |values|)
  {
    hide Shift5, Xor, WordOf, Is5Bits, Is25Bits, IsPacked;
    if values == [] {
      NothingIsPacked();
    } else {
      var n := |values| - 1;
      PackedFits(values[..n]);
      WordIsSmall(values[n]);
      PackOne(Packed(values[..n]), WordOf(values[n]), n);
    }
  }

  lemma NothingIsPacked()
    ensures IsPacked(0, 0)
  {
  }

  function Blank(n: nat): seq<int> {
    seq(n, i => 0)
  }

  /** Up to six symbols enter the state unmixed. */
  lemma {:induction false} FeedCarries(c: Word, values: seq<int>)
    requires |values| <= 6
    ensures Feed(c, values) == Xor(Feed(c, Blank(|values|)), Packed(values))
  {
    hide Step, Shift5, Xor, WordOf, Is5Bits, Is25Bits, IsPacked;
    if values == [] {
      XorWithZero(c);
    } else {
      var n := |values| - 1;
      FeedCarries(c, values[..n]);
      PackedFits(values[..n]);
      WordIsSmall(values[n]);
      PackOne(Packed(values[..n]), WordOf(values[n]), n);
      StepCarries(Feed(c, Blank(n)), Packed(values[..n]), WordOf(values[n]));
      assert Blank(n + 1)[..n] == Blank(n);
      BlankIsZero();
    }
  }

  lemma BlankIsZero()
    ensures WordOf(0) == 0
  {
  }

  lemma PackSeparates(p: Word, v: Word, q: Word, w: Word)
    requires Is25Bits(p) && Is25Bits(q) && Is5Bits(v) && Is5Bits(w)
    requires Xor(Shift5(p), v) == Xor(Shift5(q), w)
    ensures p == q && v == w
  {
  }

  lemma {:induction false} PackedIsInjective(values: seq<int>, others: seq<int>)
    requires Symbols(values) && Symbols(others) && |values| == |others| <= 6
    requires Packed(values) == Packed(others)
    ensures values == others
  {
    hide Shift5, Xor, WordOf, Is5Bits, Is25Bits, IsPacked, IsSymbol;
    if values != [] {
      var n := |values| - 1;
      PackedFits(values[..n]);
      PackedFits(others[..n]);
      WordIsSmall(values[n]);
      WordIsSmall(others[n]);
      PackOne(Packed(values[..n]), WordOf(values[n]), n);
      PackOne(Packed(others[..n]), WordOf(others[n]), n);
      PackSeparates(Packed(values[..n]), WordOf(values[n]), Packed(others[..n]), WordOf(others[n]));
      PackedIsInjective(values[..n], others[..n]);
      WordReadsBack(values[n]);
      WordReadsBack(others[n]);
      assert values == values[..n] + [values[n]] && others == others[..n] + [others[n]];
    }
  }

  /** The six symbols of a residue, highest bits first. */
  function Unpacked(residue: Word): (r: seq<int>)
    ensures |r| == 6 && Symbols(r)
  {
    [SymbolOf(Piece(residue, 25)), SymbolOf(Piece(residue, 20)), SymbolOf(Piece(residue, 15)),
     SymbolOf(Piece(residue, 10)), SymbolOf(Piece(residue, 5)), SymbolOf(Piece(residue, 0))]
  }

  function After(r: Word, k: nat): Word
    requires k <= 25
  {
    r >> k
  }

  lemma TopIsPiece(r: Word)
    requires Is30Bits(r)
    ensures (r >> 25) & 31 == r >> 25
  {
  }

  lemma NothingShifted(x: Word)
    ensures Xor(Shift5(0), x) == x && x >> 0 == x
  {
  }

  lemma PieceOnTop(r: Word)
    requires Is30Bits(r)
    ensures Xor(Shift5(0), Piece(r, 25)) == After(r, 25) && After(r, 0) == r
  {
    hide Xor, Shift5, Is30Bits;
    TopIsPiece(r);
    NothingShifted(r >> 25);
    NothingShifted(r);
  }

  function Up(x: Word): Word {
    x >> 5
  }

  lemma FiveLowest(x: Word)
    ensures Xor(Shift5(Up(x)), Last5(x)) == x
  {
  }

  lemma PieceIsLowest(r: Word, k: nat)
    requires k <= 25
    ensures Piece(r, k) == Last5(After(r, k))
  {
  }

  lemma AfterIs(r: Word)
    ensures After(r, 25) == r >> 25 && After(r, 20) == r >> 20 && After(r, 15) == r >> 15
    ensures After(r, 10) == r >> 10 && After(r, 5) == r >> 5 && After(r, 0) == r >> 0
  {
  }

  lemma ShiftedTwice(r: Word)
    ensures (r >> 20) >> 5 == r >> 25 && (r >> 15) >> 5 == r >> 20 && (r >> 10) >> 5 == r >> 15
    ensures (r >> 5) >> 5 == r >> 10 && (r >> 0) >> 5 == r >> 5
  {
  }

  lemma UpFrom20(r: Word)
    ensures Up(After(r, 20)) == After(r, 25)
  {
    hide After;
    AfterIs(r);
    ShiftedTwice(r);
  }

  lemma UpFrom15(r: Word)
    ensures Up(After(r, 15)) == After(r, 20)
  {
    hide After;
    AfterIs(r);
    ShiftedTwice(r);
  }

  lemma UpFrom10(r: Word)
    ensures Up(After(r, 10)) == After(r, 15)
  {
    hide After;
    AfterIs(r);
    ShiftedTwice(r);
  }

  lemma UpFrom5(r: Word)
    ensures Up(After(r, 5)) == After(r, 10)
  {
    hide After;
    AfterIs(r);
    ShiftedTwice(r);
  }

  lemma UpFrom0(r: Word)
    ensures Up(After(r, 0)) == After(r, 5)
  {
    hide After;
    AfterIs(r);
    ShiftedTwice(r);
  }

  lemma PieceNext(r: Word, k: nat)
    requires k <= 20 && Up(After(r, k)) == After(r, k + 5)
    ensures Xor(Shift5(After(r, k + 5)), Piece(r, k)) == After(r, k)
  {
    hide Xor, Shift5, Up, After, Piece, Last5;
    FiveLowest(After(r, k));
    PieceIsLowest(r, k);
  }

  lemma PiecesJoin(r: Word)
    requires Is30Bits(r)
    ensures
      r == Xor(Shift5(Xor(Shift5(Xor(Shift5(Xor(Shift5(Xor(Shift5(Xor(Shift5(0),
               Piece(r, 25))), Piece(r, 20))), Piece(r, 15))), Piece(r, 10))), Piece(r, 5))), Piece(r, 0))
  {
    hide Xor, Shift5, Piece, After, Is30Bits, Up;
    PieceOnTop(r);
    UpFrom20(r);
    PieceNext(r, 20);
    UpFrom15(r);
    PieceNext(r, 15);
    UpFrom10(r);
    PieceNext(r, 10);
    UpFrom5(r);
    PieceNext(r, 5);
    UpFrom0(r);
    PieceNext(r, 0);
  }

  lemma PackedOnce(values: seq<int>, v: int)
    ensures Packed(values + [v]) == Xor(Shift5(Packed(values)), WordOf(v))
  {
    hide Xor, Shift5, WordOf;
    assert (values + [v])[..|values|] == values;
  }

  lemma PieceReadsBack(r: Word, k: nat)
    requires k <= 25
    ensures WordOf(SymbolOf(Piece(r, k))) == Piece(r, k)
  {
    hide Piece, WordOf, SymbolOf, Is5Bits;
    PieceIsSmall(r, k);
    SymbolReadsBack(Piece(r, k));
  }

  lemma UnpackedPacks(r: Word)
    requires Is30Bits(r)
    ensures Packed(Unpacked(r)) == r
  {
    hide Xor, Shift5, WordOf, SymbolOf, Piece, Is30Bits, Packed;
    var u := Unpacked(r);
    PieceReadsBack(r, 25);
    PieceReadsBack(r, 20);
    PieceReadsBack(r, 15);
    PieceReadsBack(r, 10);
    PieceReadsBack(r, 5);
    PieceReadsBack(r, 0);
    PackedSix(u);
    PiecesJoin(r);
  }

  lemma PackedSix(u: seq<int>)
    requires |u| == 6
    ensures Packed(u) ==
            Xor(Shift5(Xor(Shift5(Xor(Shift5(Xor(Shift5(Xor(Shift5(Xor(Shift5(0),
                WordOf(u[0]))), WordOf(u[1]))), WordOf(u[2]))), WordOf(u[3]))), WordOf(u[4]))), WordOf(u[5]))
  {
    hide Xor, Shift5, WordOf, Packed;
    PackedNothing();
    PackedOnce([], u[0]);
    assert [] + [u[0]] == u[..1];
    PackedOnce(u[..1], u[1]);
    assert u[..1] + [u[1]] == u[..2];
    PackedOnce(u[..2], u[2]);
    assert u[..2] + [u[2]] == u[..3];
    PackedOnce(u[..3], u[3]);
    assert u[..3] + [u[3]] == u[..4];
    PackedOnce(u[..4], u[4]);
    assert u[..4] + [u[4]] == u[..5];
    PackedOnce(u[..5], u[5]);
    assert u[..5] + [u[5]] == u;
  }

  lemma PackedNothing()
    ensures Packed([]) == 0
  {
  }

  /** The six symbols that complete a list to the checksum 1. */
  function ChecksumOf(values: seq<int>): (r: seq<int>)
    ensures |r| == 6 && Symbols(r)
  {
    Unpacked(Xor(Feed(1, values + Blank(6)), 1))
  }

  /** Six symbols complete a list to the checksum 1 exactly when they are its checksum. */
  lemma ChecksumIsUnique(values: seq<int>, last: seq<int>)
    requires |last| == 6 && Symbols(last)
    ensures Feed(1, values + last) == 1 <==> last == ChecksumOf(values)
  {
    hide Feed, Xor, Packed, Unpacked, Is30Bits;
    var blank := Feed(1, values + Blank(6));
    var residue := Xor(blank, 1);
    OneIs30Bits();
    FeedStays(1, values + Blank(6));
    FeedInParts(1, values, last);
    FeedInParts(1, values, Blank(6));
    FeedCarries(Feed(1, values), last);
    ResidueStays(blank);
    UnpackedPacks(residue);
    XorCancels(blank, 1);
    XorCancels(blank, Packed(last));
    if Packed(last) == residue {
      PackedIsInjective(last, Unpacked(residue));
    }
  }

  lemma ResidueStays(w: Word)
    requires Is30Bits(w)
    ensures Is30Bits(Xor(w, 1))
  {
  }
}
