/** The addresses of BIP 173's 32-byte program, computed: they fix alphabet, generators, prefix and version. */
module AddressVectors {
  import opened Prelude
  import opened Regrouping
  import opened Checksum
  import opened Alphabets
  import opened CarrierAddresses

  const PROGRAM := "1863143c14" + "c5166804bd" + "19203356da" + "136c985678" + "cd4d27a1b8" +
    "c632960490" + "3262"
  const SPELLED := "rp33g0q5" + "c5txsp9a" + "rysrx4k6" + "zdkfs4nc" + "e4xj0gdc" + "ccefvpys" + "xf3q"
  const MAINNET_ADDRESS := "bc1q" + SPELLED + "ccfmv3"
  const TESTNET_ADDRESS := "tb1q" + SPELLED + "0sl5k7"

  // The program in parts of 40 bits and a last one of 16: in groups of four bits, and of five with four zero bits
  // at the end.

  const NIBBLES1: seq<int> := [1, 8, 6, 3, 1, 4, 3, 12, 1, 4]
  const NIBBLES2: seq<int> := [12, 5, 1, 6, 6, 8, 0, 4, 11, 13]
  const NIBBLES3: seq<int> := [1, 9, 2, 0, 3, 3, 5, 6, 13, 10]
  const NIBBLES4: seq<int> := [1, 3, 6, 12, 9, 8, 5, 6, 7, 8]
  const NIBBLES5: seq<int> := [12, 13, 4, 13, 2, 7, 10, 1, 11, 8]
  const NIBBLES6: seq<int> := [12, 6, 3, 2, 9, 6, 0, 4, 9, 0]
  const NIBBLES7: seq<int> := [3, 2, 6, 2]
  const SYMBOLS1: seq<int> := [3, 1, 17, 17, 8, 15, 0, 20]
  const SYMBOLS2: seq<int> := [24, 20, 11, 6, 16, 1, 5, 29]
  const SYMBOLS3: seq<int> := [3, 4, 16, 3, 6, 21, 22, 26]
  const SYMBOLS4: seq<int> := [2, 13, 22, 9, 16, 21, 19, 24]
  const SYMBOLS5: seq<int> := [25, 21, 6, 18, 15, 8, 13, 24]
  const SYMBOLS6: seq<int> := [24, 24, 25, 9, 12, 1, 4, 16]
  const SYMBOLS7: seq<int> := [6, 9, 17, 0]
  const NIBBLES := NIBBLES1 + NIBBLES2 + NIBBLES3 + NIBBLES4 + NIBBLES5 + NIBBLES6 + NIBBLES7
  const SYMBOLS := SYMBOLS1 + SYMBOLS2 + SYMBOLS3 + SYMBOLS4 + SYMBOLS5 + SYMBOLS6 + SYMBOLS7

  // ----- spelling -----------------------------------------------------------------------------

  ghost predicate IsSpelled(alphabet: string, values: seq<int>, text: string) {
    InAlphabet(alphabet, values) && text == Spell(alphabet, values)
  }

  lemma SpelledInParts(alphabet: string, a: seq<int>, s: string, b: seq<int>, t: string)
    requires IsSpelled(alphabet, a, s) && IsSpelled(alphabet, b, t)
    ensures IsSpelled(alphabet, a + b, s + t)
  {
  }

  lemma HexPart1()
    ensures IsSpelled(HEX, NIBBLES1, "1863143c14")
  {
  }

  lemma HexPart2()
    ensures IsSpelled(HEX, NIBBLES2, "c5166804bd")
  {
  }

  lemma HexPart3()
    ensures IsSpelled(HEX, NIBBLES3, "19203356da")
  {
  }

  lemma HexPart4()
    ensures IsSpelled(HEX, NIBBLES4, "136c985678")
  {
  }

  lemma HexPart5()
    ensures IsSpelled(HEX, NIBBLES5, "cd4d27a1b8")
  {
  }

  lemma HexPart6()
    ensures IsSpelled(HEX, NIBBLES6, "c632960490")
  {
  }

  lemma HexPart7()
    ensures IsSpelled(HEX, NIBBLES7, "3262")
  {
  }

  lemma TextPart1()
    ensures IsSpelled(CHARSET, SYMBOLS1, "rp33g0q5")
  {
  }

  lemma TextPart2()
    ensures IsSpelled(CHARSET, SYMBOLS2, "c5txsp9a")
  {
  }

  lemma TextPart3()
    ensures IsSpelled(CHARSET, SYMBOLS3, "rysrx4k6")
  {
  }

  lemma TextPart4()
    ensures IsSpelled(CHARSET, SYMBOLS4, "zdkfs4nc")
  {
  }

  lemma TextPart5()
    ensures IsSpelled(CHARSET, SYMBOLS5, "e4xj0gdc")
  {
  }

  lemma TextPart6()
    ensures IsSpelled(CHARSET, SYMBOLS6, "ccefvpys")
  {
  }

  lemma TextPart7()
    ensures IsSpelled(CHARSET, SYMBOLS7, "xf3q")
  {
  }

  lemma MainnetCheckPart()
    ensures IsSpelled(CHARSET, [24, 24, 9, 27, 12, 17], "ccfmv3")
  {
  }

  lemma TestnetCheckPart()
    ensures IsSpelled(CHARSET, [15, 16, 31, 20, 22, 30], "0sl5k7")
  {
  }

  lemma ProgramIsSpelled()
    ensures IsSpelled(HEX, NIBBLES, PROGRAM)
  {
    hide IsSpelled, NIBBLES1, NIBBLES2, NIBBLES3, NIBBLES4, NIBBLES5, NIBBLES6, NIBBLES7;
    HexPart1();
    HexPart2();
    HexPart3();
    HexPart4();
    HexPart5();
    HexPart6();
    HexPart7();
    var values, text := NIBBLES1, "1863143c14";
    SpelledInParts(HEX, values, text, NIBBLES2, "c5166804bd");
    values, text := values + NIBBLES2, text + "c5166804bd";
    SpelledInParts(HEX, values, text, NIBBLES3, "19203356da");
    values, text := values + NIBBLES3, text + "19203356da";
    SpelledInParts(HEX, values, text, NIBBLES4, "136c985678");
    values, text := values + NIBBLES4, text + "136c985678";
    SpelledInParts(HEX, values, text, NIBBLES5, "cd4d27a1b8");
    values, text := values + NIBBLES5, text + "cd4d27a1b8";
    SpelledInParts(HEX, values, text, NIBBLES6, "c632960490");
    values, text := values + NIBBLES6, text + "c632960490";
    SpelledInParts(HEX, values, text, NIBBLES7, "3262");
    values, text := values + NIBBLES7, text + "3262";
  }

  lemma SymbolsAreSpelled()
    ensures IsSpelled(CHARSET, SYMBOLS, SPELLED)
  {
    hide IsSpelled, SYMBOLS1, SYMBOLS2, SYMBOLS3, SYMBOLS4, SYMBOLS5, SYMBOLS6, SYMBOLS7;
    TextPart1();
    TextPart2();
    TextPart3();
    TextPart4();
    TextPart5();
    TextPart6();
    TextPart7();
    var values, text := SYMBOLS1, "rp33g0q5";
    SpelledInParts(CHARSET, values, text, SYMBOLS2, "c5txsp9a");
    values, text := values + SYMBOLS2, text + "c5txsp9a";
    SpelledInParts(CHARSET, values, text, SYMBOLS3, "rysrx4k6");
    values, text := values + SYMBOLS3, text + "rysrx4k6";
    SpelledInParts(CHARSET, values, text, SYMBOLS4, "zdkfs4nc");
    values, text := values + SYMBOLS4, text + "zdkfs4nc";
    SpelledInParts(CHARSET, values, text, SYMBOLS5, "e4xj0gdc");
    values, text := values + SYMBOLS5, text + "e4xj0gdc";
    SpelledInParts(CHARSET, values, text, SYMBOLS6, "ccefvpys");
    values, text := values + SYMBOLS6, text + "ccefvpys";
    SpelledInParts(CHARSET, values, text, SYMBOLS7, "xf3q");
    values, text := values + SYMBOLS7, text + "xf3q";
  }

  // ----- one number in two widths -------------------------------------------------------------

  lemma {:induction false} NumberInParts(a: seq<int>, b: seq<int>, width: nat)
    ensures Number(a + b, width) == ShiftLeft(Number(a, width), |b| * width) + Number(b, width)
  {
    hide ShiftLeft;
    if b == [] {
      assert a + b == a;
      ShiftByNothing(Number(a, width));
    } else {
      var n := |b| - 1;
      assert (a + b)[..|a + b| - 1] == a + b[..n];
      NumberInParts(a, b[..n], width);
      Regrouping.OneMore(n, width);
      LeftTwice(Number(a, width), n * width, width);
      LeftOfSum(ShiftLeft(Number(a, width), n * width), Number(b[..n], width), width);
    }
  }

  /** Twenty bits are five groups of four and four groups of five. */
  predicate SameBlock(nibbles: seq<int>, symbols: seq<int>, k: nat)
    requires 5 * k + 5 <= |nibbles| && 4 * k + 4 <= |symbols|
  {
    var i, j := 5 * k, 4 * k;
    16 * (16 * (16 * (16 * nibbles[i] + nibbles[i + 1]) + nibbles[i + 2]) + nibbles[i + 3]) + nibbles[i + 4]
    == 32 * (32 * (32 * symbols[j] + symbols[j + 1]) + symbols[j + 2]) + symbols[j + 3]
  }

  lemma NumberOfNext(values: seq<int>, width: nat, i: nat)
    requires i < |values|
    ensures Number(values[..i + 1], width) == ShiftLeft(Number(values[..i], width), width) + values[i]
  {
    assert values[..i + 1][..i] == values[..i];
  }

  lemma WidthsAre()
    ensures forall n :: ShiftLeft(n, 4) == 16 * n && ShiftLeft(n, 5) == 32 * n
    ensures forall n :: ShiftLeft(n, 16) == 0x1_0000 * n && ShiftLeft(n, 20) == 0x10_0000 * n
  {
    assert Pow2(4) == 16 && Pow2(5) == 32;
    Pow2Sum(8, 8);
    assert Pow2(8) == 256;
    Pow2Sum(16, 4);
  }

  lemma {:induction false} BlocksAgree(nibbles: seq<int>, symbols: seq<int>, n: nat)
    requires 5 * n <= |nibbles| && 4 * n <= |symbols|
    requires forall k :: 0 <= k < n ==> SameBlock(nibbles, symbols, k)
    ensures Number(nibbles[..5 * n], 4) == Number(symbols[..4 * n], 5)
  {
    hide Number, ShiftLeft;
    if n == 0 {
      EmptyNumber();
    } else {
      BlocksAgree(nibbles, symbols, n - 1);
      assert SameBlock(nibbles, symbols, n - 1);
      var i, j := 5 * (n - 1), 4 * (n - 1);
      WidthsAre();
      NumberOfNext(nibbles, 4, i);
      NumberOfNext(nibbles, 4, i + 1);
      NumberOfNext(nibbles, 4, i + 2);
      NumberOfNext(nibbles, 4, i + 3);
      NumberOfNext(nibbles, 4, i + 4);
      NumberOfNext(symbols, 5, j);
      NumberOfNext(symbols, 5, j + 1);
      NumberOfNext(symbols, 5, j + 2);
      NumberOfNext(symbols, 5, j + 3);
    }
  }

  lemma EmptyNumber()
    ensures forall width :: Number([], width) == 0
  {
  }

  lemma Part1Agrees()
    ensures |NIBBLES1| == 10 && |SYMBOLS1| == 8 && Number(NIBBLES1, 4) == Number(SYMBOLS1, 5)
  {
    hide Number;
    BlocksAgree(NIBBLES1, SYMBOLS1, 2);
    assert NIBBLES1[..10] == NIBBLES1 && SYMBOLS1[..8] == SYMBOLS1;
  }

  lemma Part2Agrees()
    ensures |NIBBLES2| == 10 && |SYMBOLS2| == 8 && Number(NIBBLES2, 4) == Number(SYMBOLS2, 5)
  {
    hide Number;
    BlocksAgree(NIBBLES2, SYMBOLS2, 2);
    assert NIBBLES2[..10] == NIBBLES2 && SYMBOLS2[..8] == SYMBOLS2;
  }

  lemma Part3Agrees()
    ensures |NIBBLES3| == 10 && |SYMBOLS3| == 8 && Number(NIBBLES3, 4) == Number(SYMBOLS3, 5)
  {
    hide Number;
    BlocksAgree(NIBBLES3, SYMBOLS3, 2);
    assert NIBBLES3[..10] == NIBBLES3 && SYMBOLS3[..8] == SYMBOLS3;
  }

  lemma Part4Agrees()
    ensures |NIBBLES4| == 10 && |SYMBOLS4| == 8 && Number(NIBBLES4, 4) == Number(SYMBOLS4, 5)
  {
    hide Number;
    BlocksAgree(NIBBLES4, SYMBOLS4, 2);
    assert NIBBLES4[..10] == NIBBLES4 && SYMBOLS4[..8] == SYMBOLS4;
  }

  lemma Part5Agrees()
    ensures |NIBBLES5| == 10 && |SYMBOLS5| == 8 && Number(NIBBLES5, 4) == Number(SYMBOLS5, 5)
  {
    hide Number;
    BlocksAgree(NIBBLES5, SYMBOLS5, 2);
    assert NIBBLES5[..10] == NIBBLES5 && SYMBOLS5[..8] == SYMBOLS5;
  }

  lemma Part6Agrees()
    ensures |NIBBLES6| == 10 && |SYMBOLS6| == 8 && Number(NIBBLES6, 4) == Number(SYMBOLS6, 5)
  {
    hide Number;
    BlocksAgree(NIBBLES6, SYMBOLS6, 2);
    assert NIBBLES6[..10] == NIBBLES6 && SYMBOLS6[..8] == SYMBOLS6;
  }

  lemma LastPartAgrees()
    ensures |NIBBLES7| == 4 && |SYMBOLS7| == 4 && Number(SYMBOLS7, 5) == 16 * Number(NIBBLES7, 4)
  {
    hide Number, ShiftLeft;
    WidthsAre();
    EmptyNumber();
    FourDigits(NIBBLES7, 4);
    FourDigits(SYMBOLS7, 5);
  }

  lemma FourDigits(values: seq<int>, width: nat)
    requires |values| == 4
    ensures
      var one := ShiftLeft(0, width) + values[0];
      var two := ShiftLeft(one, width) + values[1];
      Number(values, width) == ShiftLeft(ShiftLeft(two, width) + values[2], width) + values[3]
  {
    hide Number, ShiftLeft;
    EmptyNumber();
    NumberOfNext(values, width, 0);
    NumberOfNext(values, width, 1);
    NumberOfNext(values, width, 2);
    NumberOfNext(values, width, 3);
    assert values[..0] == [] && values[..4] == values;
  }

  lemma SameNumbers(a: seq<int>, x: seq<int>, b: seq<int>, y: seq<int>)
    requires Number(a, 4) == Number(b, 5) && Number(x, 4) == Number(y, 5) && |x| * 4 == |y| * 5
    ensures Number(a + x, 4) == Number(b + y, 5)
  {
    hide Number, ShiftLeft;
    NumberInParts(a, x, 4);
    NumberInParts(b, y, 5);
  }

  /** The symbols are the program with four zero bits at the end. */
  lemma SymbolsHoldProgram()
    ensures Number(SYMBOLS, 5) == 16 * Number(NIBBLES, 4)
  {
    hide Number, ShiftLeft, NIBBLES1, NIBBLES2, NIBBLES3, NIBBLES4, NIBBLES5, NIBBLES6, NIBBLES7,
      SYMBOLS1, SYMBOLS2, SYMBOLS3, SYMBOLS4, SYMBOLS5, SYMBOLS6, SYMBOLS7;
    Part1Agrees();
    Part2Agrees();
    Part3Agrees();
    Part4Agrees();
    Part5Agrees();
    Part6Agrees();
    LastPartAgrees();
    var nibbles, symbols := NIBBLES1, SYMBOLS1;
    SameNumbers(nibbles, NIBBLES2, symbols, SYMBOLS2);
    nibbles, symbols := nibbles + NIBBLES2, symbols + SYMBOLS2;
    SameNumbers(nibbles, NIBBLES3, symbols, SYMBOLS3);
    nibbles, symbols := nibbles + NIBBLES3, symbols + SYMBOLS3;
    SameNumbers(nibbles, NIBBLES4, symbols, SYMBOLS4);
    nibbles, symbols := nibbles + NIBBLES4, symbols + SYMBOLS4;
    SameNumbers(nibbles, NIBBLES5, symbols, SYMBOLS5);
    nibbles, symbols := nibbles + NIBBLES5, symbols + SYMBOLS5;
    SameNumbers(nibbles, NIBBLES6, symbols, SYMBOLS6);
    nibbles, symbols := nibbles + NIBBLES6, symbols + SYMBOLS6;
    NumberInParts(nibbles, NIBBLES7, 4);
    NumberInParts(symbols, SYMBOLS7, 5);
    WidthsAre();
  }

  // ----- the checksums ------------------------------------------------------------------------

  /** One symbol leads from a state to the next. */
  predicate Leads(c: Word, v: int, d: Word) {
    Step(c, WordOf(v)) == d
  }

  /** The states that symbols lead through, one after the other. */
  ghost predicate LeadsThrough(states: seq<Word>, values: seq<int>) {
    |states| == |values| + 1 && forall i :: 0 <= i < |values| ==> Leads(states[i], values[i], states[i + 1])
  }

  lemma {:induction false} FeedLeads(states: seq<Word>, values: seq<int>, n: nat)
    requires LeadsThrough(states, values) && n <= |values|
    ensures Feed(states[0], values[..n]) == states[n]
  {
    hide Step, WordOf;
    if n > 0 {
      FeedLeads(states, values, n - 1);
      assert values[..n][..n - 1] == values[..n - 1];
      assert Leads(states[n - 1], values[n - 1], states[n]);
    }
  }

  lemma MainnetHeadSteps()
    ensures Leads(0x1, 3, 0x23) && Leads(0x23, 3, 0x463) && Leads(0x463, 0, 0x8c60)
    ensures Leads(0x8c60, 2, 0x118c02) && Leads(0x118c02, 3, 0x2318043) && Leads(0x2318043, 0, 0x3d5a5fd2)
  {
  }

  lemma MainnetHead()
    ensures Feed(0x1, [3, 3, 0, 2, 3, 0]) == 0x3d5a5fd2
  {
    hide Leads, Feed;
    MainnetHeadSteps();
    var values, states := [3, 3, 0, 2, 3, 0], [0x1, 0x23, 0x463, 0x8c60, 0x118c02, 0x2318043, 0x3d5a5fd2];
    assert LeadsThrough(states, values);
    FeedLeads(states, values, 6);
    assert values[..6] == values;
  }

  lemma MainnetPart1Steps()
    ensures Leads(0x3d5a5fd2, 3, 0x4ec3cba) && Leads(0x4ec3cba, 1, 0x3bd7192c) && Leads(0x3bd7192c, 17, 0x87e3ab7)
    ensures Leads(0x87e3ab7, 17, 0x11664f0b) && Leads(0x11664f0b, 8, 0x118bd2b5) && Leads(0x118bd2b5, 15, 0xc386572)
    ensures Leads(0xc386572, 0, 0x3ffd39d7) && Leads(0x3ffd39d7, 20, 0x2b6aabbf)
  {
  }

  lemma MainnetPart1()
    ensures Feed(0x3d5a5fd2, SYMBOLS1) == 0x2b6aabbf
  {
    hide Leads, Feed;
    MainnetPart1Steps();
    var values, states := SYMBOLS1, [
      0x3d5a5fd2, 0x4ec3cba, 0x3bd7192c, 0x87e3ab7, 0x11664f0b, 0x118bd2b5, 0xc386572, 0x3ffd39d7, 0x2b6aabbf];
    assert LeadsThrough(states, values);
    FeedLeads(states, values, 8);
    assert values[..8] == values;
  }

  lemma MainnetPart2Steps()
    ensures Leads(0x2b6aabbf, 24, 0x228a5b03) && Leads(0x228a5b03, 20, 0x355575) && Leads(0x355575, 11, 0x6aaaeab)
    ensures Leads(0x6aaaeab, 6, 0x86f0cb9) && Leads(0x86f0cb9, 16, 0x13408eca) && Leads(0x13408eca, 1, 0x2e39bd2e)
    ensures Leads(0x2e39bd2e, 5, 0x2eb80753) && Leads(0x2eb80753, 29, 0x3e8f48eb)
  {
  }

  lemma MainnetPart2()
    ensures Feed(0x2b6aabbf, SYMBOLS2) == 0x3e8f48eb
  {
    hide Leads, Feed;
    MainnetPart2Steps();
    var values, states := SYMBOLS2, [
      0x2b6aabbf, 0x228a5b03, 0x355575, 0x6aaaeab, 0x86f0cb9, 0x13408eca, 0x2e39bd2e, 0x2eb80753, 0x3e8f48eb];
    assert LeadsThrough(states, values);
    FeedLeads(states, values, 8);
    assert values[..8] == values;
  }

  lemma MainnetPart3Steps()
    ensures Leads(0x3e8f48eb, 3, 0x5248c28) && Leads(0x5248c28, 4, 0x2c10b69) && Leads(0x2c10b69, 16, 0x234b3a82)
    ensures Leads(0x234b3a82, 3, 0x38196542) && Leads(0x38196542, 6, 0xadbe0d2) && Leads(0xadbe0d2, 21, 0x3eb7541d)
    ensures Leads(0x3eb7541d, 22, 0x22712fd) && Leads(0x22712fd, 26, 0x3f880808)
  {
  }

  lemma MainnetPart3()
    ensures Feed(0x3e8f48eb, SYMBOLS3) == 0x3f880808
  {
    hide Leads, Feed;
    MainnetPart3Steps();
    var values, states := SYMBOLS3, [
      0x3e8f48eb, 0x5248c28, 0x2c10b69, 0x234b3a82, 0x38196542, 0xadbe0d2, 0x3eb7541d, 0x22712fd, 0x3f880808];
    assert LeadsThrough(states, values);
    FeedLeads(states, values, 8);
    assert values[..8] == values;
  }

  lemma MainnetPart4Steps()
    ensures Leads(0x3f880808, 2, 0x25cc9049) && Leads(0x25cc9049, 13, 0x35d6e5f3) && Leads(0x35d6e5f3, 22, 0xbda6175)
    ensures Leads(0xbda6175, 9, 0x1e8760e1) && Leads(0x1e8760e1, 16, 0x2e35efc8) && Leads(0x2e35efc8, 21, 0x2f325b83)
    ensures Leads(0x2f325b83, 19, 0xfc4d2e5) && Leads(0xfc4d2e5, 24, 0x3b019c9d)
  {
  }

  lemma MainnetPart4()
    ensures Feed(0x3f880808, SYMBOLS4) == 0x3b019c9d
  {
    hide Leads, Feed;
    MainnetPart4Steps();
    var values, states := SYMBOLS4, [
      0x3f880808, 0x25cc9049, 0x35d6e5f3, 0xbda6175, 0x1e8760e1, 0x2e35efc8, 0x2f325b83, 0xfc4d2e5, 0x3b019c9d];
    assert LeadsThrough(states, values);
    FeedLeads(states, values, 8);
    assert values[..8] == values;
  }

  lemma MainnetPart5Steps()
    ensures Leads(0x3b019c9d, 25, 0x12ae8c9f) && Leads(0x12ae8c9f, 21, 0x13f9f79a) && Leads(0x13f9f79a, 6, 0x39169729)
    ensures Leads(0x39169729, 18, 0x2b25ada6) && Leads(0x2b25ada6, 15, 0x2b6a9834) && Leads(0x2b6a9834, 8, 0x228c2a73)
    ensures Leads(0x228c2a73, 13, 0xfb7b6c) && Leads(0xfb7b6c, 24, 0x1f6f6d98)
  {
  }

  lemma MainnetPart5()
    ensures Feed(0x3b019c9d, SYMBOLS5) == 0x1f6f6d98
  {
    hide Leads, Feed;
    MainnetPart5Steps();
    var values, states := SYMBOLS5, [
      0x3b019c9d, 0x12ae8c9f, 0x13f9f79a, 0x39169729, 0x2b25ada6, 0x2b6a9834, 0x228c2a73, 0xfb7b6c, 0x1f6f6d98];
    assert LeadsThrough(states, values);
    FeedLeads(states, values, 8);
    assert values[..8] == values;
  }

  lemma MainnetPart6Steps()
    ensures Leads(0x1f6f6d98, 24, 0x133440e0) && Leads(0x133440e0, 24, 0x20a07877) && Leads(0x20a07877, 25, 0x3e1b6c4a)
    ensures Leads(0x3e1b6c4a, 9, 0x17a01802) && Leads(0x17a01802, 12, 0x147bea4e) && Leads(0x147bea4e, 1, 0x146ff471)
    ensures Leads(0x146ff471, 4, 0x16ec3394) && Leads(0x16ec3394, 16, 0x3dfe9892)
  {
  }

  lemma MainnetPart6()
    ensures Feed(0x1f6f6d98, SYMBOLS6) == 0x3dfe9892
  {
    hide Leads, Feed;
    MainnetPart6Steps();
    var values, states := SYMBOLS6, [
      0x1f6f6d98, 0x133440e0, 0x20a07877, 0x3e1b6c4a, 0x17a01802, 0x147bea4e, 0x146ff471, 0x16ec3394, 0x3dfe9892];
    assert LeadsThrough(states, values);
    FeedLeads(states, values, 8);
    assert values[..8] == values;
  }

  lemma MainnetPart7Steps()
    ensures Leads(0x3dfe9892, 6, 0x1074d4bf) && Leads(0x1074d4bf, 9, 0x33d8a434) && Leads(0x33d8a434, 17, 0x1728804d)
    ensures Leads(0x1728804d, 0, 0x568e3a2)
  {
  }

  lemma MainnetPart7()
    ensures Feed(0x3dfe9892, SYMBOLS7) == 0x568e3a2
  {
    hide Leads, Feed;
    MainnetPart7Steps();
    var values, states := SYMBOLS7, [0x3dfe9892, 0x1074d4bf, 0x33d8a434, 0x1728804d, 0x568e3a2];
    assert LeadsThrough(states, values);
    FeedLeads(states, values, 4);
    assert values[..4] == values;
  }

  lemma MainnetTailSteps()
    ensures Leads(0x568e3a2, 24, 0xb4cfa35) && Leads(0xb4cfa35, 24, 0xc5408f0) && Leads(0xc5408f0, 9, 0x3270899e)
    ensures Leads(0x3270899e, 27, 0x222d3507) && Leads(0x222d3507, 12, 0x14d895ed) && Leads(0x14d895ed, 17, 0x1)
  {
  }

  lemma MainnetTail()
    ensures Feed(0x568e3a2, [24, 24, 9, 27, 12, 17]) == 0x1
  {
    hide Leads, Feed;
    MainnetTailSteps();
    var values, states := [24, 24, 9, 27, 12, 17],
        [0x568e3a2, 0xb4cfa35, 0xc5408f0, 0x3270899e, 0x222d3507, 0x14d895ed, 0x1];
    assert LeadsThrough(states, values);
    FeedLeads(states, values, 6);
    assert values[..6] == values;
  }

  lemma MainnetResidue()
    ensures Feed(1, HrpExpand("bc") + ([0] + SYMBOLS + [24, 24, 9, 27, 12, 17])) == 1
  {
    hide Feed, SYMBOLS1, SYMBOLS2, SYMBOLS3, SYMBOLS4, SYMBOLS5, SYMBOLS6, SYMBOLS7;
    var fed, check := [3, 3, 0, 2, 3, 0], [24, 24, 9, 27, 12, 17];
    assert HrpExpand("bc") + [0] == fed;
    assert HrpExpand("bc") + ([0] + SYMBOLS + check)
        == fed + SYMBOLS1 + SYMBOLS2 + SYMBOLS3 + SYMBOLS4 + SYMBOLS5 + SYMBOLS6 + SYMBOLS7 + check;
    MainnetHead();
    FeedInParts(1, fed, SYMBOLS1);
    MainnetPart1();
    fed := fed + SYMBOLS1;
    FeedInParts(1, fed, SYMBOLS2);
    MainnetPart2();
    fed := fed + SYMBOLS2;
    FeedInParts(1, fed, SYMBOLS3);
    MainnetPart3();
    fed := fed + SYMBOLS3;
    FeedInParts(1, fed, SYMBOLS4);
    MainnetPart4();
    fed := fed + SYMBOLS4;
    FeedInParts(1, fed, SYMBOLS5);
    MainnetPart5();
    fed := fed + SYMBOLS5;
    FeedInParts(1, fed, SYMBOLS6);
    MainnetPart6();
    fed := fed + SYMBOLS6;
    FeedInParts(1, fed, SYMBOLS7);
    MainnetPart7();
    fed := fed + SYMBOLS7;
    FeedInParts(1, fed, check);
    MainnetTail();
  }

  lemma TestnetHeadSteps()
    ensures Leads(0x1, 3, 0x23) && Leads(0x23, 3, 0x463) && Leads(0x463, 0, 0x8c60)
    ensures Leads(0x8c60, 20, 0x118c14) && Leads(0x118c14, 2, 0x2318282) && Leads(0x2318282, 0, 0x3d5a07f2)
  {
  }

  lemma TestnetHead()
    ensures Feed(0x1, [3, 3, 0, 20, 2, 0]) == 0x3d5a07f2
  {
    hide Leads, Feed;
    TestnetHeadSteps();
    var values, states := [3, 3, 0, 20, 2, 0], [0x1, 0x23, 0x463, 0x8c60, 0x118c14, 0x2318282, 0x3d5a07f2];
    assert LeadsThrough(states, values);
    FeedLeads(states, values, 6);
    assert values[..6] == values;
  }

  lemma TestnetPart1Steps()
    ensures Leads(0x3d5a07f2, 3, 0x4e738ba) && Leads(0x4e738ba, 1, 0x3ab7992c) && Leads(0x3ab7992c, 17, 0x246e3ab7)
    ensures Leads(0x246e3ab7, 17, 0x183ba2f) && Leads(0x183ba2f, 8, 0x307745e8) && Leads(0x307745e8, 15, 0x19beec61)
    ensures Leads(0x19beec61, 0, 0x143ea607) && Leads(0x143ea607, 20, 0x1cc67d44)
  {
  }

  lemma TestnetPart1()
    ensures Feed(0x3d5a07f2, SYMBOLS1) == 0x1cc67d44
  {
    hide Leads, Feed;
    TestnetPart1Steps();
    var values, states := SYMBOLS1, [
      0x3d5a07f2, 0x4e738ba, 0x3ab7992c, 0x246e3ab7, 0x183ba2f, 0x307745e8, 0x19beec61, 0x143ea607, 0x1cc67d44];
    assert LeadsThrough(states, values);
    FeedLeads(states, values, 8);
    assert values[..8] == values;
  }

  lemma TestnetPart2Steps()
    ensures Leads(0x1cc67d44, 24, 0x1d7c0cd2) && Leads(0x1d7c0cd2, 20, 0x2a323e1e) && Leads(0x2a323e1e, 11, 0x998ef30)
    ensures Leads(0x998ef30, 6, 0x2dbcfffc) && Leads(0x2dbcfffc, 16, 0x257a0ab4) && Leads(0x257a0ab4, 1, 0x2305ba5f)
    ensures Leads(0x2305ba5f, 5, 0x31c97ee4) && Leads(0x31c97ee4, 29, 0x2e798df3)
  {
  }

  lemma TestnetPart2()
    ensures Feed(0x1cc67d44, SYMBOLS2) == 0x2e798df3
  {
    hide Leads, Feed;
    TestnetPart2Steps();
    var values, states := SYMBOLS2, [
      0x1cc67d44, 0x1d7c0cd2, 0x2a323e1e, 0x998ef30, 0x2dbcfffc, 0x257a0ab4, 0x2305ba5f, 0x31c97ee4, 0x2e798df3];
    assert LeadsThrough(states, values);
    FeedLeads(states, values, 8);
    assert values[..8] == values;
  }

  lemma TestnetPart3Steps()
    ensures Leads(0x2e798df3, 3, 0x26be1cf5) && Leads(0x26be1cf5, 4, 0x20ed25c8) && Leads(0x20ed25c8, 16, 0x37b0dba3)
    ensures Leads(0x37b0dba3, 3, 0x3c77fcd2) && Leads(0x3c77fcd2, 6, 0x21585cbf) && Leads(0x21585cbf, 21, 0x11ff546)
    ensures Leads(0x11ff546, 22, 0x23fea8d6) && Leads(0x23fea8d6, 26, 0x2eab2fdb)
  {
  }

  lemma TestnetPart3()
    ensures Feed(0x2e798df3, SYMBOLS3) == 0x2eab2fdb
  {
    hide Leads, Feed;
    TestnetPart3Steps();
    var values, states := SYMBOLS3, [
      0x2e798df3, 0x26be1cf5, 0x20ed25c8, 0x37b0dba3, 0x3c77fcd2, 0x21585cbf, 0x11ff546, 0x23fea8d6, 0x2eab2fdb];
    assert LeadsThrough(states, values);
    FeedLeads(states, values, 8);
    assert values[..8] == values;
  }

  lemma TestnetPart4Steps()
    ensures Leads(0x2eab2fdb, 2, 0x3cea59f4) && Leads(0x3cea59f4, 13, 0x32ecf874) && Leads(0x32ecf874, 22, 0x31a3084a)
    ensures Leads(0x31a3084a, 9, 0x23375827) && Leads(0x23375827, 16, 0x379531f1) && Leads(0x379531f1, 21, 0x38cab684)
    ensures Leads(0x38cab684, 19, 0x10a19807) && Leads(0x10a19807, 24, 0x29713325)
  {
  }

  lemma TestnetPart4()
    ensures Feed(0x2eab2fdb, SYMBOLS4) == 0x29713325
  {
    hide Leads, Feed;
    TestnetPart4Steps();
    var values, states := SYMBOLS4, [
      0x2eab2fdb, 0x3cea59f4, 0x32ecf874, 0x31a3084a, 0x23375827, 0x379531f1, 0x38cab684, 0x10a19807, 0x29713325];
    assert LeadsThrough(states, values);
    FeedLeads(states, values, 8);
    assert values[..8] == values;
  }

  lemma TestnetPart5Steps()
    ensures Leads(0x29713325, 25, 0x1a931ff0) && Leads(0x1a931ff0, 21, 0xaea8380) && Leads(0xaea8380, 6, 0x389b3e4e)
    ensures Leads(0x389b3e4e, 18, 0x1a908146) && Leads(0x1a908146, 15, 0xa99555a) && Leads(0xa99555a, 8, 0x36e1e500)
    ensures Leads(0x36e1e500, 13, 0x165028bc) && Leads(0x165028bc, 24, 0x2a7dfd9a)
  {
  }

  lemma TestnetPart5()
    ensures Feed(0x29713325, SYMBOLS5) == 0x2a7dfd9a
  {
    hide Leads, Feed;
    TestnetPart5Steps();
    var values, states := SYMBOLS5, [
      0x29713325, 0x1a931ff0, 0xaea8380, 0x389b3e4e, 0x1a908146, 0xa99555a, 0x36e1e500, 0x165028bc, 0x2a7dfd9a];
    assert LeadsThrough(states, values);
    FeedLeads(states, values, 8);
    assert values[..8] == values;
  }

  lemma TestnetPart6Steps()
    ensures Leads(0x2a7dfd9a, 24, 0x609fa3) && Leads(0x609fa3, 24, 0xc13f478) && Leads(0xc13f478, 25, 0x3a8f188e)
    ensures Leads(0x3a8f188e, 9, 0x237e0eef) && Leads(0x237e0eef, 12, 0x3ebfe8ed) && Leads(0x3ebfe8ed, 1, 0x3308cea)
    ensures Leads(0x3308cea, 4, 0x1d7bcaf6) && Leads(0x1d7bcaf6, 16, 0x2acafa9a)
  {
  }

  lemma TestnetPart6()
    ensures Feed(0x2a7dfd9a, SYMBOLS6) == 0x2acafa9a
  {
    hide Leads, Feed;
    TestnetPart6Steps();
    var values, states := SYMBOLS6, [
      0x2a7dfd9a, 0x609fa3, 0xc13f478, 0x3a8f188e, 0x237e0eef, 0x3ebfe8ed, 0x3308cea, 0x1d7bcaf6, 0x2acafa9a];
    assert LeadsThrough(states, values);
    FeedLeads(states, values, 8);
    assert values[..8] == values;
  }

  lemma TestnetPart7Steps()
    ensures Leads(0x2acafa9a, 6, 0x16807fbd) && Leads(0x16807fbd, 9, 0x30771dab) && Leads(0x30771dab, 17, 0x19b5e41f)
    ensures Leads(0x19b5e41f, 0, 0x155fa9c7)
  {
  }

  lemma TestnetPart7()
    ensures Feed(0x2acafa9a, SYMBOLS7) == 0x155fa9c7
  {
    hide Leads, Feed;
    TestnetPart7Steps();
    var values, states := SYMBOLS7, [0x2acafa9a, 0x16807fbd, 0x30771dab, 0x19b5e41f, 0x155fa9c7];
    assert LeadsThrough(states, values);
    FeedLeads(states, values, 4);
    assert values[..4] == values;
  }

  lemma TestnetTailSteps()
    ensures Leads(0x155fa9c7, 15, 0x30e7855f) && Leads(0x30e7855f, 16, 0xba6fa9e) && Leads(0xba6fa9e, 31, 0x11141d97)
    ensures Leads(0x11141d97, 20, 0x1fc18129) && Leads(0x1fc18129, 22, 0x6e9d6ce) && Leads(0x6e9d6ce, 30, 0x1)
  {
  }

  lemma TestnetTail()
    ensures Feed(0x155fa9c7, [15, 16, 31, 20, 22, 30]) == 0x1
  {
    hide Leads, Feed;
    TestnetTailSteps();
    var values, states := [15, 16, 31, 20, 22, 30],
        [0x155fa9c7, 0x30e7855f, 0xba6fa9e, 0x11141d97, 0x1fc18129, 0x6e9d6ce, 0x1];
    assert LeadsThrough(states, values);
    FeedLeads(states, values, 6);
    assert values[..6] == values;
  }

  lemma TestnetResidue()
    ensures Feed(1, HrpExpand("tb") + ([0] + SYMBOLS + [15, 16, 31, 20, 22, 30])) == 1
  {
    hide Feed, SYMBOLS1, SYMBOLS2, SYMBOLS3, SYMBOLS4, SYMBOLS5, SYMBOLS6, SYMBOLS7;
    var fed, check := [3, 3, 0, 20, 2, 0], [15, 16, 31, 20, 22, 30];
    assert HrpExpand("tb") + [0] == fed;
    assert HrpExpand("tb") + ([0] + SYMBOLS + check)
        == fed + SYMBOLS1 + SYMBOLS2 + SYMBOLS3 + SYMBOLS4 + SYMBOLS5 + SYMBOLS6 + SYMBOLS7 + check;
    TestnetHead();
    FeedInParts(1, fed, SYMBOLS1);
    TestnetPart1();
    fed := fed + SYMBOLS1;
    FeedInParts(1, fed, SYMBOLS2);
    TestnetPart2();
    fed := fed + SYMBOLS2;
    FeedInParts(1, fed, SYMBOLS3);
    TestnetPart3();
    fed := fed + SYMBOLS3;
    FeedInParts(1, fed, SYMBOLS4);
    TestnetPart4();
    fed := fed + SYMBOLS4;
    FeedInParts(1, fed, SYMBOLS5);
    TestnetPart5();
    fed := fed + SYMBOLS5;
    FeedInParts(1, fed, SYMBOLS6);
    TestnetPart6();
    fed := fed + SYMBOLS6;
    FeedInParts(1, fed, SYMBOLS7);
    TestnetPart7();
    fed := fed + SYMBOLS7;
    FeedInParts(1, fed, check);
    TestnetTail();
  }

  // ----- the addresses ------------------------------------------------------------------------

  lemma ProgramBytes()
    ensures IsProgramHex(PROGRAM) && Fits(SYMBOLS, 5)
    ensures Regroup(SYMBOLS, 5, 8, false) == Some(BytesOf(PROGRAM))
  {
    hide Number, Digits, Mask, ShiftRight, NIBBLES, SYMBOLS, PROGRAM, Spell, Fits, Regroup, BytesOf, InAlphabet;
    ProgramIsSpelled();
    SymbolsAreSpelled();
    PartLengths();
    HexIsDistinct();
    SpellThenRead(HEX, NIBBLES);
    ReadsExactly(HEX, PROGRAM);
    NibblesFit(NIBBLES);
    SymbolsFit(SYMBOLS);
    SymbolsHoldProgram();
    FourZeroBits(Number(NIBBLES, 4));
    SymbolsRegroup();
    ProgramRegrouped();
  }

  lemma SymbolsRegroup()
    requires Fits(SYMBOLS, 5) && |SYMBOLS| == 52
    ensures Mask(Number(SYMBOLS, 5), 4) == 0 ==>
              Regroup(SYMBOLS, 5, 8, false) == Some(Digits(ShiftRight(Number(SYMBOLS, 5), 4), 8, 32))
  {
    hide Number, Digits, Mask, ShiftRight, SYMBOLS, Fits;
  }

  lemma ProgramRegrouped()
    requires IsProgramHex(PROGRAM) && Read(HEX, PROGRAM) == Some(NIBBLES) && Fits(NIBBLES, 4) && |NIBBLES| == 64
    ensures Mask(Number(NIBBLES, 4), 0) == 0 ==>
              BytesOf(PROGRAM) == Digits(ShiftRight(Number(NIBBLES, 4), 0), 8, 32)
  {
    hide Number, Digits, Mask, ShiftRight, NIBBLES, PROGRAM, Fits, Read;
  }

  lemma PartLengths()
    ensures |NIBBLES| == 64 && |SYMBOLS| == 52 && |PROGRAM| == 64
  {
  }

  lemma FourZeroBits(n: int)
    ensures Mask(16 * n, 4) == 0 && ShiftRight(16 * n, 4) == n && ShiftRight(n, 0) == n && Mask(n, 0) == 0
  {
    assert Pow2(4) == 16;
  }

  /** A text that spells version, program and a checksum of residue 1 is the program's address. */
  lemma VectorDecodes(network: Network, check: seq<int>, text: string)
    requires |check| == 6 && IsSpelled(CHARSET, check, text)
    requires Feed(1, HrpExpand(NetworkHrp(network)) + ([0] + SYMBOLS + check)) == 1
    ensures Encode(PROGRAM, network) == Ok(NetworkHrp(network) + "1" + ("q" + SPELLED + text))
  {
    hide Feed, NIBBLES, SYMBOLS, SPELLED, PROGRAM, HrpExpand, DecodeData, Regroup, Read, LastIndexOf, Spell, AddressOf,
      BytesOf;
    var hrp, data, rest := NetworkHrp(network), [0] + SYMBOLS + check, "q" + SPELLED + text;
    ProgramBytes();
    PartLengths();
    SymbolsAreSpelled();
    ZeroIsQ();
    SpelledInParts(CHARSET, [0], "q", SYMBOLS, SPELLED);
    SpelledInParts(CHARSET, [0] + SYMBOLS, "q" + SPELLED, check, text);
    CharsetIsDistinct();
    SpellThenRead(CHARSET, data);
    ReadsExactly(CHARSET, rest);
    CharsetHasNoSeparator(rest);
    SeparatorIs(hrp, rest);
    var address := hrp + "1" + rest;
    assert address[|hrp| + 1..] == rest && address[..|hrp|] == hrp;
    DataDecodes(hrp, check);
    DecodesToProgram(address, network, BytesOf(PROGRAM));
  }

  lemma ZeroIsQ()
    ensures IsSpelled(CHARSET, [0], "q")
  {
  }

  lemma DataDecodes(hrp: string, check: seq<int>)
    requires |check| == 6 && Feed(1, HrpExpand(hrp) + ([0] + SYMBOLS + check)) == 1
    ensures |[0] + SYMBOLS + check| >= 6 && IsProgramHex(PROGRAM)
    ensures DecodeData(hrp, [0] + SYMBOLS + check) == Some(BytesOf(PROGRAM))
  {
    hide Feed, NIBBLES, SYMBOLS, PROGRAM, HrpExpand, Regroup, BytesOf;
    ProgramBytes();
    PartLengths();
    var data := [0] + SYMBOLS + check;
    assert data[..|data| - 6] == [0] + SYMBOLS && ([0] + SYMBOLS)[1..] == SYMBOLS;
  }

  lemma AddressInParts()
    ensures MAINNET_ADDRESS == "bc" + "1" + ("q" + SPELLED + "ccfmv3")
    ensures TESTNET_ADDRESS == "tb" + "1" + ("q" + SPELLED + "0sl5k7")
  {
    hide SPELLED;
    assert "bc1q" == "bc" + "1" + "q" && "tb1q" == "tb" + "1" + "q";
  }

  /** The program's address on mainnet, encoded and decoded. */
  lemma MainnetVector()
    ensures Encode(PROGRAM, Mainnet) == Ok(MAINNET_ADDRESS)
    ensures Decode(MAINNET_ADDRESS, Mainnet) == Some(CarrierAddress(MAINNET_ADDRESS, PROGRAM))
  {
    hide Feed, NIBBLES, SYMBOLS, SPELLED, PROGRAM, HrpExpand, Encode, Decode;
    MainnetResidue();
    MainnetCheckPart();
    ProgramBytes();
    AddressInParts();
    VectorDecodes(Mainnet, [24, 24, 9, 27, 12, 17], "ccfmv3");
    EncodeThenDecode(PROGRAM, Mainnet);
  }

  /** The program's address on the test networks, encoded and decoded. */
  lemma TestnetVector()
    ensures Encode(PROGRAM, Testnet4) == Ok(TESTNET_ADDRESS)
    ensures Decode(TESTNET_ADDRESS, Testnet4) == Some(CarrierAddress(TESTNET_ADDRESS, PROGRAM))
  {
    hide Feed, NIBBLES, SYMBOLS, SPELLED, PROGRAM, HrpExpand, Encode, Decode;
    TestnetResidue();
    TestnetCheckPart();
    ProgramBytes();
    AddressInParts();
    VectorDecodes(Testnet4, [15, 16, 31, 20, 22, 30], "0sl5k7");
    EncodeThenDecode(PROGRAM, Testnet4);
  }
}
