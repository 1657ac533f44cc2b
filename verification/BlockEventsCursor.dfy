/** The block-events cursor (src/api/block-events.service.ts): its text form and back. */
module BlockEventsCursors {
  import opened Prelude
  import opened Bitcoin
  import opened Regrouping
  import opened Alphabets

  const CURSOR_VERSION := "tbe1"
  const DIGITS := "0123456789"
  const UPPERS := "ABCDEFGHIJKLMNOPQRSTUVWXYZ"
  const LOWERS := "abcdefghijklmnopqrstuvwxyz"
  const BASE64URL := UPPERS + LOWERS + DIGITS + "-_"

  predicate IsHashText(text: string) {
    |text| == 64 && forall i :: 0 <= i < |text| ==> text[i] in HEX
  }

  /** A block hash is 64 lower-case hexadecimal digits. */
  type HashText = text: string | IsHashText(text) witness seq(64, _ => '0')

  datatype BlockEventsCursor = BlockEventsCursor(
    height: nat, blockHash: HashText, txIndex: nat, eventIndex: nat, subIndex: nat)

  predicate InRange(c: BlockEventsCursor) {
    c.height < 10_000_000_000 && c.txIndex <= U32_MAX && c.eventIndex <= U32_MAX && c.subIndex <= U32_MAX
  }

  // ----- decimal numbers ----------------------------------------------------------------------

  function Decimal(n: nat): (r: string)
    ensures r != []
  {
    (if n < 10 then [] else Decimal(n / 10)) + [DIGITS[n % 10]]
  }

  function DecimalValue(text: string): nat {
    if text == [] then 0
    else
      DecimalValue(text[..|text| - 1]) * 10 +
      match IndexOf(DIGITS, text[|text| - 1]) case Some(d) => d case None => 0
  }

  predicate IsDecimal(text: string) {
    && 1 <= |text| <= 10
    && (forall i :: 0 <= i < |text| ==> text[i] in DIGITS)
    && (|text| > 1 ==> text[0] != '0')
  }

  lemma DigitsAreDistinct()
    ensures Distinct(DIGITS)
  {
  }

  function Pow10(n: nat): (r: nat)
    ensures r > 0
  {
    if n == 0 then 1 else 10 * Pow10(n - 1)
  }

  lemma {:induction false} DecimalReadsBack(n: nat)
    ensures DecimalValue(Decimal(n)) == n
    ensures forall i :: 0 <= i < |Decimal(n)| ==> Decimal(n)[i] in DIGITS
    ensures |Decimal(n)| > 1 ==> Decimal(n)[0] != '0'
    ensures n > 0 ==> Decimal(n)[0] != '0'
  {
    hide Distinct;
    var text := Decimal(n);
    DigitsAreDistinct();
    IndexOfPlace(DIGITS, n % 10);
    if n < 10 {
      assert text[..0] == [];
    } else {
      DecimalReadsBack(n / 10);
      assert text[..|text| - 1] == Decimal(n / 10);
    }
  }

  lemma {:induction false} DecimalLength(n: nat, k: nat)
    requires k > 0
    ensures |Decimal(n)| <= k <==> n < Pow10(k)
  {
    if k == 1 {
      assert Pow10(1) == 10 * Pow10(0);
    } else if n >= 10 {
      DecimalLength(n / 10, k - 1);
    }
  }

  lemma {:induction false} ValueStays(text: string)
    ensures DecimalValue(text) < Pow10(|text|)
  {
    if text != [] {
      ValueStays(text[..|text| - 1]);
    }
  }

  // ----- fields -------------------------------------------------------------------------------

  function Split(text: string): (r: seq<string>)
    ensures r != []
  {
    if text == [] then [[]]
    else
      var n := |text| - 1;
      var before := Split(text[..n]);
      if text[n] == ':' then before + [[]]
      else before[..|before| - 1] + [before[|before| - 1] + [text[n]]]
  }

  function Join(parts: seq<string>): string
    requires parts != []
  {
    if |parts| == 1 then parts[0] else Join(parts[..|parts| - 1]) + ":" + parts[|parts| - 1]
  }

  lemma SplitChar(text: string, c: char)
    requires c != ':'
    ensures var before := Split(text);
            Split(text + [c]) == before[..|before| - 1] + [before[|before| - 1] + [c]]
  {
    assert (text + [c])[..|text|] == text;
  }

  lemma {:induction false} SplitField(text: string, field: string)
    requires ':' !in field
    ensures var before := Split(text);
            Split(text + field) == before[..|before| - 1] + [before[|before| - 1] + field]
  {
    hide Split;
    var before := Split(text);
    if field == [] {
      assert text + field == text;
      assert before[|before| - 1] + field == before[|before| - 1];
    } else {
      var n := |field| - 1;
      SplitField(text, field[..n]);
      SplitChar(text + field[..n], field[n]);
      assert text + field[..n] + [field[n]] == text + field;
      assert before[|before| - 1] + field[..n] + [field[n]] == before[|before| - 1] + field;
    }
  }

  lemma SplitSeparator(text: string)
    ensures Split(text + ":") == Split(text) + [[]]
  {
    assert (text + ":")[..|text|] == text;
  }

  lemma {:induction false} JoinThenSplit(parts: seq<string>)
    requires parts != [] && forall i :: 0 <= i < |parts| ==> ':' !in parts[i]
    ensures Split(Join(parts)) == parts
  {
    hide Split;
    var n := |parts| - 1;
    if n == 0 {
      SplitNothing();
      SplitField([], parts[0]);
      assert [] + parts[0] == parts[0];
    } else {
      JoinThenSplit(parts[..n]);
      var front := Join(parts[..n]);
      SplitSeparator(front);
      SplitField(front + ":", parts[n]);
      assert [] + parts[n] == parts[n];
      assert parts == parts[..n] + [parts[n]];
    }
  }

  lemma SplitNothing()
    ensures Split([]) == [[]]
  {
  }

  function Fields(c: BlockEventsCursor): (r: seq<string>)
    ensures |r| == 6
  {
    [CURSOR_VERSION, Decimal(c.height), c.blockHash, Decimal(c.txIndex), Decimal(c.eventIndex), Decimal(c.subIndex)]
  }

  /** What the body pattern matches: six fields, of which four are decimal numbers without leading zeros. */
  function Parse(body: string): Option<BlockEventsCursor> {
    var parts := Split(body);
    if |parts| == 6 && parts[0] == CURSOR_VERSION && IsDecimal(parts[1]) && IsHashText(parts[2])
       && IsDecimal(parts[3]) && IsDecimal(parts[4]) && IsDecimal(parts[5])
    then Some(BlockEventsCursor(DecimalValue(parts[1]), parts[2], DecimalValue(parts[3]),
                                DecimalValue(parts[4]), DecimalValue(parts[5])))
    else None
  }

  lemma DecimalIsPlain(n: nat)
    ensures ':' !in Decimal(n)
    ensures n < 10_000_000_000 ==> IsDecimal(Decimal(n))
    ensures DecimalValue(Decimal(n)) == n
  {
    hide Decimal, DecimalValue, Pow10;
    DecimalReadsBack(n);
    DecimalLength(n, 10);
    TenDigits();
  }

  lemma TenDigits()
    ensures Pow10(10) == 10_000_000_000
  {
    assert Pow10(5) == 100_000;
  }

  lemma ParseFields(c: BlockEventsCursor)
    requires InRange(c)
    ensures Parse(Join(Fields(c))) == Some(c)
  {
    hide Split, Join, Decimal, DecimalValue, IsDecimal;
    DecimalIsPlain(c.height);
    DecimalIsPlain(c.txIndex);
    DecimalIsPlain(c.eventIndex);
    DecimalIsPlain(c.subIndex);
    JoinThenSplit(Fields(c));
  }

  lemma {:induction false} Pow10Grows(a: nat, b: nat)
    requires a <= b
    ensures Pow10(a) <= Pow10(b)
  {
    if a < b {
      Pow10Grows(a, b - 1);
    }
  }

  lemma DecimalIsBounded(text: string)
    requires IsDecimal(text)
    ensures DecimalValue(text) < 10_000_000_000
  {
    hide DecimalValue, Pow10;
    ValueStays(text);
    Pow10Grows(|text|, 10);
    TenDigits();
  }

  // ----- base64url ----------------------------------------------------------------------------

  function Codes(text: string): seq<int> {
    seq(|text|, i requires 0 <= i < |text| => text[i] as int)
  }

  function Latin1(bytes: seq<int>): string
    requires Fits(bytes, 8)
  {
    ByteRange();
    seq(|bytes|, i requires 0 <= i < |bytes| => bytes[i] as char)
  }

  lemma ByteRange()
    ensures Pow2(8) == 256 && Pow2(6) == 64
  {
    assert Pow2(4) == 16;
  }

  predicate IsAscii(text: string) {
    forall i :: 0 <= i < |text| ==> text[i] as int < 128
  }

  lemma SextetsFit(values: seq<int>)
    ensures Fits(values, 6) <==> InAlphabet(BASE64URL, values)
  {
    ByteRange();
  }

  function ToBase64Url(bytes: seq<int>): string
    requires Fits(bytes, 8)
  {
    NarrowThenWiden(bytes, 8, 6);
    SextetsFit(Regroup(bytes, 8, 6, true).value);
    Spell(BASE64URL, Regroup(bytes, 8, 6, true).value)
  }

  /** The bytes that base64url sextets hold; bits left over at the end are dropped, whatever they are. */
  function BytesIn(sextets: seq<int>): (r: seq<int>)
    ensures Fits(r, 8)
  {
    var bits := |sextets| * 6;
    DigitsFit(ShiftRight(Number(sextets, 6), bits % 8), 8, bits / 8);
    Digits(ShiftRight(Number(sextets, 6), bits % 8), 8, bits / 8)
  }

  function Body(c: BlockEventsCursor): string {
    Join(Fields(c))
  }

  lemma AsciiFits(text: string)
    requires IsAscii(text)
    ensures Fits(Codes(text), 8)
    ensures Latin1(Codes(text)) == text
  {
    ByteRange();
  }

  lemma DecimalIsAscii(n: nat)
    ensures IsAscii(Decimal(n))
  {
    hide Decimal;
    DecimalReadsBack(n);
    DigitsAreAscii(Decimal(n));
  }

  lemma DigitsAreAscii(text: string)
    requires forall i :: 0 <= i < |text| ==> text[i] in DIGITS || text[i] in HEX
    ensures IsAscii(text) && ':' !in text
  {
  }

  lemma {:induction false} JoinIsAscii(parts: seq<string>)
    requires parts != [] && forall i :: 0 <= i < |parts| ==> IsAscii(parts[i])
    ensures IsAscii(Join(parts))
  {
    if |parts| > 1 {
      JoinIsAscii(parts[..|parts| - 1]);
    }
  }

  lemma BodyIsAscii(c: BlockEventsCursor)
    ensures IsAscii(Body(c))
  {
    hide Join, IsAscii, Decimal;
    DecimalIsAscii(c.height);
    DecimalIsAscii(c.txIndex);
    DecimalIsAscii(c.eventIndex);
    DecimalIsAscii(c.subIndex);
    DigitsAreAscii(c.blockHash);
    VersionIsAscii();
    JoinIsAscii(Fields(c));
  }

  lemma VersionIsAscii()
    ensures IsAscii(CURSOR_VERSION)
  {
  }

  function Encode(c: BlockEventsCursor): string {
    BodyIsAscii(c);
    AsciiFits(Body(c));
    ToBase64Url(Codes(Body(c)))
  }

  function Decode(raw: string): Option<BlockEventsCursor> {
    if !(1 <= |raw| <= 200) then None
    else
      match Read(BASE64URL, raw)
      case None => None
      case Some(sextets) =>
        match Parse(Latin1(BytesIn(sextets)))
        case None => None
        case Some(c) =>
          if c.txIndex > U32_MAX || c.eventIndex > U32_MAX || c.subIndex > U32_MAX then None
          else if Encode(c) == raw then Some(c)
          else None
  }

  /** The character code of each base64url digit. */
  function CodeAt(i: nat): nat {
    if i < 26 then 65 + i else if i < 52 then 71 + i else if i < 62 then i - 4 else if i == 62 then 45 else 95
  }

  predicate HasCode(i: nat)
    requires i < 64
  {
    BASE64URL[i] as int == CodeAt(i)
  }

  lemma UpperCodes()
    ensures forall i :: 0 <= i < 26 ==> HasCode(i)
  {
  }

  lemma LowerCodes()
    ensures forall i :: 26 <= i < 52 ==> HasCode(i)
  {
  }

  lemma OtherCodes()
    ensures forall i :: 52 <= i < 64 ==> HasCode(i)
  {
  }

  lemma Base64HasSize()
    ensures |BASE64URL| == 64
  {
  }

  lemma Base64IsDistinct()
    ensures Distinct(BASE64URL)
  {
    hide BASE64URL;
    UpperCodes();
    LowerCodes();
    OtherCodes();
    Base64HasSize();
    forall i, j | 0 <= i < j < |BASE64URL|
      ensures BASE64URL[i] != BASE64URL[j]
    {
      assert HasCode(i) && HasCode(j);
    }
  }

  // ----- the cursor round trip ----------------------------------------------------------------

  /** The body of an in-range cursor has at most 113 characters, so its text has at most 151. */
  lemma BodyLength(c: BlockEventsCursor)
    requires InRange(c)
    ensures 0 < |Body(c)| <= 113
  {
    hide Decimal, IsDecimal, Join;
    JoinSix(Fields(c));
    DecimalFits(c.height);
    DecimalFits(c.txIndex);
    DecimalFits(c.eventIndex);
    DecimalFits(c.subIndex);
  }

  lemma DecimalFits(n: nat)
    requires n < 10_000_000_000
    ensures |Decimal(n)| <= 10
  {
    hide Decimal;
    DecimalIsPlain(n);
  }

  lemma JoinSix(parts: seq<string>)
    requires |parts| == 6
    ensures |Join(parts)| == |parts[0]| + |parts[1]| + |parts[2]| + |parts[3]| + |parts[4]| + |parts[5]| + 5
  {
    hide Join;
    assert parts[..5][..4] == parts[..4] && parts[..4][..3] == parts[..3];
    assert parts[..3][..2] == parts[..2] && parts[..2][..1] == parts[..1];
    JoinTwo(parts);
    JoinTwo(parts[..5]);
    JoinTwo(parts[..4]);
    JoinTwo(parts[..3]);
    JoinTwo(parts[..2]);
    JoinOne(parts[..1]);
  }

  lemma JoinOne(parts: seq<string>)
    requires |parts| == 1
    ensures Join(parts) == parts[0]
  {
  }

  lemma JoinTwo(parts: seq<string>)
    requires |parts| > 1
    ensures |Join(parts)| == |Join(parts[..|parts| - 1])| + 1 + |parts[|parts| - 1]|
  {
  }

  lemma SextetsHoldBytes(bytes: seq<int>)
    requires Fits(bytes, 8)
    ensures BytesIn(Regroup(bytes, 8, 6, true).value) == bytes
  {
    hide Fits, Number, Digits, ShiftRight, Mask;
    NarrowThenWiden(bytes, 8, 6);
  }

  /**
   * Decoding accepts exactly the encodings of in-range cursors and gives each its cursor back: the two
   * are inverse, and no encoding is too long.
   */
  lemma CursorRoundTrip(raw: string, c: BlockEventsCursor)
    ensures Decode(raw) == Some(c) <==> InRange(c) && Encode(c) == raw
    ensures InRange(c) ==> |Encode(c)| <= 151
  {
    hide BytesIn, Parse, Spell, Read, Body, IsDecimal, Regroup, Split, Fits;
    if Decode(raw) == Some(c) {
      DecodedIsInRange(raw, c);
    }
    if InRange(c) {
      BodyLength(c);
      BodyIsAscii(c);
      AsciiFits(Body(c));
      var bytes := Codes(Body(c));
      NarrowThenWiden(bytes, 8, 6);
      var sextets := Regroup(bytes, 8, 6, true).value;
      SextetsFit(sextets);
      Base64IsDistinct();
      SpellThenRead(BASE64URL, sextets);
      SextetsHoldBytes(bytes);
      ParseFields(c);
      assert Body(c) == Join(Fields(c)) by { BodyIs(c); }
    }
  }

  /** Different cursors, in range or not, have different encodings. */
  lemma EncodingsDiffer(c: BlockEventsCursor, d: BlockEventsCursor)
    requires Encode(c) == Encode(d)
    ensures c == d
  {
    hide BytesIn, Spell, Read, Body, Regroup, Split, Fits, Join, Decimal, DecimalValue;
    EncodingHoldsBody(c);
    EncodingHoldsBody(d);
    BodyIs(c);
    BodyIs(d);
    FieldsSplit(c);
    FieldsSplit(d);
  }

  lemma EncodingHoldsBody(c: BlockEventsCursor)
    ensures Read(BASE64URL, Encode(c)).Some? && Latin1(BytesIn(Read(BASE64URL, Encode(c)).value)) == Body(c)
  {
    hide BytesIn, Spell, Read, Body, Regroup, Fits;
    BodyIsAscii(c);
    AsciiFits(Body(c));
    var bytes := Codes(Body(c));
    NarrowThenWiden(bytes, 8, 6);
    var sextets := Regroup(bytes, 8, 6, true).value;
    SextetsFit(sextets);
    Base64IsDistinct();
    SpellThenRead(BASE64URL, sextets);
    SextetsHoldBytes(bytes);
  }

  lemma FieldsSplit(c: BlockEventsCursor)
    ensures Split(Join(Fields(c))) == Fields(c)
    ensures DecimalValue(Decimal(c.height)) == c.height && DecimalValue(Decimal(c.txIndex)) == c.txIndex
    ensures DecimalValue(Decimal(c.eventIndex)) == c.eventIndex && DecimalValue(Decimal(c.subIndex)) == c.subIndex
  {
    hide Split, Join, Decimal, DecimalValue, IsDecimal;
    DecimalIsPlain(c.height);
    DecimalIsPlain(c.txIndex);
    DecimalIsPlain(c.eventIndex);
    DecimalIsPlain(c.subIndex);
    JoinThenSplit(Fields(c));
  }

  lemma BodyIs(c: BlockEventsCursor)
    ensures Body(c) == Join(Fields(c))
  {
  }

  lemma DecodedIsInRange(raw: string, c: BlockEventsCursor)
    requires Decode(raw) == Some(c)
    ensures InRange(c)
  {
    hide BytesIn, Split, Read, Encode, IsDecimal, DecimalValue;
    var parts := Split(Latin1(BytesIn(Read(BASE64URL, raw).value)));
    DecimalIsBounded(parts[1]);
  }
}
