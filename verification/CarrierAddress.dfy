/** Carrier addresses: Bech32 P2WSH addresses of 32-byte programs (src/api/carrier-address.ts). */
module CarrierAddresses {
  import opened Prelude
  import opened Regrouping
  import opened Checksum
  import opened Distance
  import opened Alphabets

  const CHARSET := "qpzry9x8gf2tvdw0s3jn54khce6mua7l"

  datatype Network = Mainnet | Testnet4 | Signet | Regtest

  datatype CarrierAddress = CarrierAddress(address: string, witnessProgramHex: string)

  function NetworkHrp(network: Network): string {
    match network
    case Mainnet => "bc"
    case Regtest => "bcrt"
    case _ => "tb"
  }

  function HrpExpand(hrp: string): seq<int> {
    seq(|hrp|, i requires 0 <= i < |hrp| => hrp[i] as int / 32) + [0] +
    seq(|hrp|, i requires 0 <= i < |hrp| => hrp[i] as int % 32)
  }

  // ----- letter case --------------------------------------------------------------------------

  /**
   * The Kelvin sign is the only character outside ASCII whose lower case is in ASCII. Every other
   * character outside ASCII is kept here: no address holding one is accepted either way.
   */
  function LowerChar(c: char): char {
    if 'A' <= c <= 'Z' then (c as int + 32) as char
    else if c == '\U{212A}' then 'k'
    else c
  }

  function UpperChar(c: char): char {
    if 'a' <= c <= 'z' then (c as int - 32) as char else c
  }

  function Lower(text: string): (r: string)
    ensures |r| == |text| && forall i :: 0 <= i < |text| ==> r[i] == LowerChar(text[i])
  {
    seq(|text|, i requires 0 <= i < |text| => LowerChar(text[i]))
  }

  function Upper(text: string): (r: string)
    ensures |r| == |text|
  {
    seq(|text|, i requires 0 <= i < |text| => UpperChar(text[i]))
  }

  predicate SingleCase(text: string) {
    text == Lower(text) || text == Upper(text)
  }

  // ----- hexadecimal programs -----------------------------------------------------------------

  predicate IsProgramHex(text: string) {
    |text| == 64 && forall i :: 0 <= i < |text| ==> text[i] in HEX
  }

  /** Bytes as hexadecimal text: each byte is two groups of four bits. */
  function HexOf(bytes: seq<int>): string
    requires Fits(bytes, 8)
  {
    NarrowThenWiden(bytes, 8, 4);
    NibblesFit(Regroup(bytes, 8, 4, true).value);
    Spell(HEX, Regroup(bytes, 8, 4, true).value)
  }

  function BytesOf(text: string): (r: seq<int>)
    requires IsProgramHex(text)
    ensures |r| == 32 && Fits(r, 8)
  {
    ProgramRegroups(text);
    Regroup(Read(HEX, text).value, 4, 8, false).value
  }

  lemma NibblesFit(values: seq<int>)
    ensures Fits(values, 4) <==> InAlphabet(HEX, values)
  {
    assert Pow2(4) == 16;
  }

  lemma SymbolsFit(values: seq<int>)
    ensures Fits(values, 5) <==> Symbols(values)
    ensures Symbols(values) <==> InAlphabet(CHARSET, values)
  {
    assert Pow2(5) == 32;
  }

  lemma ProgramRegroups(text: string)
    requires IsProgramHex(text)
    ensures Read(HEX, text).Some?
    ensures var bytes := Regroup(Read(HEX, text).value, 4, 8, false);
            bytes.Some? && |bytes.value| == 32 && Fits(bytes.value, 8)
  {
    hide Read, Number, Mask, ShiftRight;
    ReadsExactly(HEX, text);
    var values := Read(HEX, text).value;
    NibblesFit(values);
    ShiftByNothing(Number(values, 4));
    DigitsFit(ShiftRight(Number(values, 4), 0), 8, 32);
  }

  lemma HexReadsBack(bytes: seq<int>)
    requires Fits(bytes, 8) && |bytes| == 32
    ensures IsProgramHex(HexOf(bytes)) && BytesOf(HexOf(bytes)) == bytes
  {
    hide Read, Spell, Regroup, InAlphabet, Fits;
    NarrowThenWiden(bytes, 8, 4);
    var nibbles := Regroup(bytes, 8, 4, true).value;
    NibblesFit(nibbles);
    HexIsDistinct();
    SpellThenRead(HEX, nibbles);
    ReadsExactly(HEX, HexOf(bytes));
  }

  lemma ProgramReadsBack(text: string)
    requires IsProgramHex(text)
    ensures HexOf(BytesOf(text)) == text
  {
    hide Read, Spell, Regroup, InAlphabet, Fits;
    ProgramRegroups(text);
    WidenThenNarrow(Read(HEX, text).value, 4, 8);
    ReadThenSpell(HEX, text);
  }

  // ----- encoding and decoding ----------------------------------------------------------------

  function LastIndexOf(text: string, c: char): (r: int)
    ensures -1 <= r < |text|
    ensures r >= 0 ==> text[r] == c
    ensures forall i :: r < i < |text| ==> text[i] != c
  {
    if text == [] then -1
    else if text[|text| - 1] == c then |text| - 1
    else LastIndexOf(text[..|text| - 1], c)
  }

  function Encode(witnessProgramHex: string, network: Network): Result<string> {
    if !IsProgramHex(witnessProgramHex) then Err(BadProgram)
    else
      Ok(AddressOf(BytesOf(witnessProgramHex), network))
  }

  function AddressOf(program: seq<int>, network: Network): string
    requires Fits(program, 8)
  {
    NetworkHrp(network) + "1" + Complete(NetworkHrp(network), PayloadOf(program))
  }

  /** Witness version 0 and the program in groups of five bits. */
  function PayloadOf(program: seq<int>): (r: seq<int>)
    requires Fits(program, 8)
    ensures Symbols(r) && r != [] && r[0] == 0 && Some(r[1..]) == Regroup(program, 8, 5, true)
  {
    NarrowThenWiden(program, 8, 5);
    SymbolsFit(Regroup(program, 8, 5, true).value);
    [0] + Regroup(program, 8, 5, true).value
  }

  /** The data part: the payload and its checksum. */
  function Complete(hrp: string, data: seq<int>): (r: string)
    requires Symbols(data)
    ensures |r| == |data| + 6
  {
    SymbolsFit(data + ChecksumOf(HrpExpand(hrp) + data));
    Spell(CHARSET, data + ChecksumOf(HrpExpand(hrp) + data))
  }

  function Decode(value: string, network: Network): Option<CarrierAddress> {
    if |value| < 14 || |value| > 90 || !SingleCase(value) then None
    else
      match DecodeLower(Lower(value), network)
      case None => None
      case Some(program) => Some(CarrierAddress(Lower(value), HexOf(program)))
  }

  /** The 32-byte program of a lower-case address. */
  function DecodeLower(address: string, network: Network): (r: Option<seq<int>>)
    ensures r.Some? ==> |r.value| == 32 && Fits(r.value, 8)
  {
    var separator := LastIndexOf(address, '1');
    if separator < 1 || separator + 7 > |address| || address[..separator] != NetworkHrp(network) then None
    else
      match Read(CHARSET, address[separator + 1..])
      case None => None
      case Some(data) => DecodeData(address[..separator], data)
  }

  function DecodeData(hrp: string, data: seq<int>): (r: Option<seq<int>>)
    requires |data| >= 6
    ensures r.Some? ==> |r.value| == 32 && Fits(r.value, 8)
  {
    var payload := data[..|data| - 6];
    if Feed(1, HrpExpand(hrp) + data) != 1 || payload == [] || payload[0] != 0 then None
    else
      match Regroup(payload[1..], 5, 8, false)
      case None => None
      case Some(program) =>
        WidenThenNarrow(payload[1..], 5, 8);
        if |program| != 32 then None else Some(program)
  }

  lemma HrpExpands(network: Network)
    ensures Symbols(HrpExpand(NetworkHrp(network)))
  {
    var hrp := NetworkHrp(network);
    assert forall i :: 0 <= i < |hrp| ==> 0 <= hrp[i] as int < 128;
  }

  predicate NewIn(text: string, n: nat)
    requires n < |text|
  {
    text[n] !in text[..n]
  }

  lemma FirstHalfDistinct()
    ensures forall n :: 0 <= n < 16 ==> NewIn(CHARSET, n)
  {
  }

  lemma ThirdQuarterDistinct()
    ensures forall n :: 16 <= n < 24 ==> NewIn(CHARSET, n)
  {
  }

  lemma LastQuarterDistinct()
    ensures forall n :: 24 <= n < 32 ==> NewIn(CHARSET, n)
  {
  }

  lemma CharsetIsDistinct()
    ensures Distinct(CHARSET)
  {
    FirstHalfDistinct();
    ThirdQuarterDistinct();
    LastQuarterDistinct();
    NewAreDistinct(CHARSET);
  }

  lemma NewAreDistinct(text: string)
    requires forall n :: 0 <= n < |text| ==> NewIn(text, n)
    ensures Distinct(text)
  {
    forall i, j | 0 <= i < j < |text|
      ensures text[i] != text[j]
    {
      assert NewIn(text, j);
      assert text[..j][i] == text[i];
    }
  }

  lemma CharsetIsLower(c: char)
    requires c in CHARSET
    ensures c != '1' && LowerChar(c) == c
  {
  }

  lemma SeparatorIs(hrp: string, rest: string)
    requires '1' !in rest
    ensures LastIndexOf(hrp + "1" + rest, '1') == |hrp|
  {
    LastStays(hrp + "1", rest);
  }

  lemma {:induction false} LastStays(front: string, rest: string)
    requires '1' !in rest
    ensures LastIndexOf(front + rest, '1') == LastIndexOf(front, '1')
  {
    if rest == [] {
      assert front + rest == front;
    } else {
      var n := |rest| - 1;
      assert rest[n] in rest;
      LastStays(front, rest[..n]);
      assert (front + rest)[..|front| + n] == front + rest[..n];
    }
  }

  /** The data part of an address, when it is decoded with the checksum 1, is its payload completed. */
  lemma DataIsComplete(hrp: string, data: seq<int>)
    requires |data| >= 6 && Symbols(data)
    ensures Feed(1, HrpExpand(hrp) + data) == 1 <==>
            data == data[..|data| - 6] + ChecksumOf(HrpExpand(hrp) + data[..|data| - 6])
  {
    hide Feed, ChecksumOf, IsSymbol, HrpExpand;
    var payload, last := data[..|data| - 6], data[|data| - 6..];
    assert data == payload + last;
    assert HrpExpand(hrp) + data == (HrpExpand(hrp) + payload) + last;
    ChecksumIsUnique(HrpExpand(hrp) + payload, last);
  }

  /** A data part decodes to a program exactly when it completes that program's payload. */
  lemma DataOfProgram(hrp: string, data: seq<int>, program: seq<int>)
    requires |data| >= 6 && Symbols(data) && |program| == 32 && Fits(program, 8)
    ensures DecodeData(hrp, data) == Some(program) <==>
            data == PayloadOf(program) + ChecksumOf(HrpExpand(hrp) + PayloadOf(program))
  {
    hide Feed, ChecksumOf, IsSymbol, HrpExpand, Regroup, Fits;
    var payload := data[..|data| - 6];
    DataIsComplete(hrp, data);
    if DecodeData(hrp, data) == Some(program) {
      WidenThenNarrow(payload[1..], 5, 8);
      assert payload == [0] + payload[1..];
      assert PayloadOf(program) == [0] + PayloadOf(program)[1..];
    }
    if data == PayloadOf(program) + ChecksumOf(HrpExpand(hrp) + PayloadOf(program)) {
      assert payload == PayloadOf(program);
      NarrowThenWiden(program, 8, 5);
    }
  }

  lemma CompleteReads(hrp: string, data: seq<int>)
    requires Symbols(data)
    ensures Read(CHARSET, Complete(hrp, data)) == Some(data + ChecksumOf(HrpExpand(hrp) + data))
    ensures forall i :: 0 <= i < |Complete(hrp, data)| ==> Complete(hrp, data)[i] in CHARSET
  {
    hide Feed, ChecksumOf, IsSymbol, HrpExpand, Read, Spell;
    var all := data + ChecksumOf(HrpExpand(hrp) + data);
    SymbolsFit(all);
    CharsetIsDistinct();
    SpellThenRead(CHARSET, all);
    ReadsExactly(CHARSET, Complete(hrp, data));
  }

  lemma CharsetHasNoSeparator(text: string)
    requires forall i :: 0 <= i < |text| ==> text[i] in CHARSET
    ensures '1' !in text && Lower(text) == text
  {
    hide CHARSET, LowerChar;
    forall i | 0 <= i < |text|
      ensures text[i] != '1' && LowerChar(text[i]) == text[i]
    {
      CharsetIsLower(text[i]);
    }
  }

  /** A lower-case text decodes to a program exactly when it is that program's address. */
  lemma DecodesToProgram(address: string, network: Network, program: seq<int>)
    requires |program| == 32 && Fits(program, 8)
    ensures DecodeLower(address, network) == Some(program) <==> address == AddressOf(program, network)
  {
    hide DecodeData, PayloadOf, Complete, Read, Fits, ChecksumOf, HrpExpand, CHARSET, LastIndexOf;
    var hrp := NetworkHrp(network);
    var own := PayloadOf(program) + ChecksumOf(HrpExpand(hrp) + PayloadOf(program));
    CompleteReads(hrp, PayloadOf(program));
    if DecodeLower(address, network) == Some(program) {
      var separator := LastIndexOf(address, '1');
      var rest := address[separator + 1..];
      var data := Read(CHARSET, rest).value;
      SymbolsFit(data);
      DataOfProgram(hrp, data, program);
      ReadThenSpell(CHARSET, rest);
      ReadThenSpell(CHARSET, Complete(hrp, PayloadOf(program)));
      assert rest == Complete(hrp, PayloadOf(program));
      assert address == hrp + "1" + rest;
    }
    if address == AddressOf(program, network) {
      var rest := Complete(hrp, PayloadOf(program));
      CharsetHasNoSeparator(rest);
      SeparatorIs(hrp, rest);
      assert address[|hrp| + 1..] == rest && address[..|hrp|] == hrp;
      SymbolsFit(own);
      DataOfProgram(hrp, own, program);
    }
  }

  /**
   * What the checksum of an address runs over: each prefix character over 32, a zero, each prefix character
   * modulo 32, and the symbols that the characters after the separator stand for.
   */
  ghost predicate IsExpanded(address: string, hrp: string, values: seq<int>) {
    && |hrp| + 1 <= |address| && address[..|hrp| + 1] == hrp + "1"
    && |values| == 2 * |hrp| + 1 + (|address| - |hrp| - 1)
    && (forall i :: 0 <= i < |hrp| ==> values[i] == hrp[i] as int / 32)
    && values[|hrp|] == 0
    && (forall i :: 0 <= i < |hrp| ==> values[|hrp| + 1 + i] == hrp[i] as int % 32)
    && (forall i :: |hrp| + 1 <= i < |address| ==>
          0 <= values[|hrp| + i] < |CHARSET| && CHARSET[values[|hrp| + i]] == address[i])
  }

  /** Every address has the residue 1 over its expanded prefix and its data. */
  lemma AddressIsChecked(program: seq<int>, network: Network) returns (values: seq<int>)
    requires |program| == 32 && Fits(program, 8)
    ensures IsExpanded(AddressOf(program, network), NetworkHrp(network), values) && Feed(1, values) == 1
  {
    hide ChecksumOf, Feed, Fits, CHARSET, Regroup, HrpExpand, IsExpanded, PayloadOf, Complete;
    var hrp := NetworkHrp(network);
    var data := PayloadOf(program) + ChecksumOf(HrpExpand(hrp) + PayloadOf(program));
    DataIsComplete(hrp, data);
    values := HrpExpand(hrp) + data;
    CompletedIsExpanded(hrp, PayloadOf(program));
  }

  lemma HrpExpandIs(hrp: string)
    ensures |HrpExpand(hrp)| == 2 * |hrp| + 1 && HrpExpand(hrp)[|hrp|] == 0
    ensures forall i :: 0 <= i < |hrp| ==> HrpExpand(hrp)[i] == hrp[i] as int / 32
    ensures forall i :: 0 <= i < |hrp| ==> HrpExpand(hrp)[|hrp| + 1 + i] == hrp[i] as int % 32
  {
  }

  lemma CompleteSpells(hrp: string, payload: seq<int>)
    requires Symbols(payload)
    ensures
      var data := payload + ChecksumOf(HrpExpand(hrp) + payload);
      && |Complete(hrp, payload)| == |data|
      && forall i :: 0 <= i < |data| ==>
           0 <= data[i] < |CHARSET| && CHARSET[data[i]] == Complete(hrp, payload)[i]
  {
    hide ChecksumOf, CHARSET, HrpExpand, IsSymbol;
    SymbolsFit(payload + ChecksumOf(HrpExpand(hrp) + payload));
  }

  lemma CompletedIsExpanded(hrp: string, payload: seq<int>)
    requires Symbols(payload)
    ensures IsExpanded(hrp + "1" + Complete(hrp, payload), hrp,
                       HrpExpand(hrp) + (payload + ChecksumOf(HrpExpand(hrp) + payload)))
  {
    hide ChecksumOf, CHARSET, HrpExpand, Symbols, Complete;
    HrpExpandIs(hrp);
    var data := payload + ChecksumOf(HrpExpand(hrp) + payload);
    CompleteSpells(hrp, payload);
    var address, values := hrp + "1" + Complete(hrp, payload), HrpExpand(hrp) + data;
    forall i | |hrp| + 1 <= i < |address|
      ensures 0 <= values[|hrp| + i] < |CHARSET| && CHARSET[values[|hrp| + i]] == address[i]
    {
      assert address[i] == Complete(hrp, payload)[i - |hrp| - 1] && values[|hrp| + i] == data[i - |hrp| - 1];
    }
  }

  /** So has every accepted address, in lower case. */
  lemma AcceptedIsChecked(value: string, network: Network) returns (values: seq<int>)
    requires Decode(value, network).Some?
    ensures IsExpanded(Lower(value), NetworkHrp(network), values) && Feed(1, values) == 1
  {
    hide AddressOf, DecodeLower, Lower, Fits, Feed, CHARSET, IsExpanded;
    var program := DecodeLower(Lower(value), network).value;
    DecodesToProgram(Lower(value), network, program);
    values := AddressIsChecked(program, network);
  }

  lemma LowerOfSum(a: string, b: string)
    ensures Lower(a + b) == Lower(a) + Lower(b)
  {
    hide LowerChar;
  }

  /** An address has 62 to 64 characters, all in lower case. */
  lemma AddressShape(program: seq<int>, network: Network)
    requires |program| == 32 && Fits(program, 8)
    ensures 62 <= |AddressOf(program, network)| <= 64 &&
              Lower(AddressOf(program, network)) == AddressOf(program, network)
  {
    hide Fits, CHARSET, Regroup, Lower, Complete;
    var hrp := NetworkHrp(network);
    var rest := Complete(hrp, PayloadOf(program));
    NarrowThenWiden(program, 8, 5);
    CompleteReads(hrp, PayloadOf(program));
    CharsetHasNoSeparator(rest);
    HrpIsLower(network);
    LowerOfSum(hrp + "1", rest);
    LowerOfSum(hrp, "1");
  }

  lemma HrpIsLower(network: Network)
    ensures Lower(NetworkHrp(network)) == NetworkHrp(network) && Lower("1") == "1"
  {
  }

  /** Decoding the address of a program gives that program back, for every program and network. */
  lemma EncodeThenDecode(witnessProgramHex: string, network: Network)
    requires IsProgramHex(witnessProgramHex)
    ensures Encode(witnessProgramHex, network).Ok?
    ensures
      var address := Encode(witnessProgramHex, network).value;
      Decode(address, network) == Some(CarrierAddress(address, witnessProgramHex))
  {
    hide AddressOf, DecodeLower, HexOf, BytesOf, Lower, Upper, Fits, IsProgramHex;
    var program := BytesOf(witnessProgramHex);
    AddressShape(program, network);
    DecodesToProgram(AddressOf(program, network), network, program);
    ProgramReadsBack(witnessProgramHex);
  }

  /** Re-encoding the program of any accepted address gives the address in lower case. */
  lemma DecodeThenEncode(value: string, network: Network)
    requires Decode(value, network).Some?
    ensures Decode(value, network).value.address == Lower(value)
    ensures Encode(Decode(value, network).value.witnessProgramHex, network) == Ok(Lower(value))
  {
    hide AddressOf, DecodeLower, HexOf, BytesOf, Lower, Upper, Fits, IsProgramHex;
    var program := DecodeLower(Lower(value), network).value;
    DecodesToProgram(Lower(value), network, program);
    HexReadsBack(program);
  }

  /** Exactly the encodings are accepted, in lower case or wholly in upper case. */
  lemma AcceptedExactly(value: string, network: Network)
    ensures Decode(value, network).Some? <==>
            SingleCase(value) &&
            exists program :: IsProgramHex(program) && Encode(program, network) == Ok(Lower(value))
  {
    hide AddressOf, DecodeLower, HexOf, BytesOf, Lower, Upper, Fits, IsProgramHex;
    if Decode(value, network).Some? {
      DecodeThenEncode(value, network);
      var hex := Decode(value, network).value.witnessProgramHex;
      assert IsProgramHex(hex);
    }
    if exists program :: IsProgramHex(program) && Encode(program, network) == Ok(Lower(value)) {
      var hex :| IsProgramHex(hex) && Encode(hex, network) == Ok(Lower(value));
      AddressShape(BytesOf(hex), network);
      DecodesToProgram(Lower(value), network, BytesOf(hex));
    }
  }

  lemma LowerOnce(value: string, i: nat, c: char)
    requires i < |value|
    ensures Lower(value[i := c]) == Lower(value)[i := LowerChar(c)]
  {
  }

  /** Replacing one character of an accepted address, other than by its other case, is always rejected. */
  lemma OneCharacterShows(value: string, network: Network, i: nat, c: char)
    requires Decode(value, network).Some? && i < |value| && LowerChar(c) != LowerChar(value[i])
    ensures Decode(value[i := c], network).None?
  {
    hide AddressOf, DecodeLower, HexOf, BytesOf, Lower, Upper, Fits, IsProgramHex, LowerChar;
    LowerOnce(value, i, c);
    LowerShows(Lower(value), network, i, LowerChar(c));
  }

  /** An accepted upper-case address stays accepted, as the same address, with the Kelvin sign for a K. */
  lemma KelvinIsAccepted(value: string, network: Network, i: nat)
    requires Decode(value, network).Some? && value == Upper(value) && i < |value| && value[i] == 'K'
    ensures Decode(value[i := '\U{212A}'], network) == Decode(value, network)
  {
    hide DecodeLower, HexOf;
    var signed := value[i := '\U{212A}'];
    LowerOnce(value, i, '\U{212A}');
    assert Lower(signed) == Lower(value);
    assert Upper(signed) == signed by {
      forall j | 0 <= j < |value|
        ensures UpperChar(signed[j]) == signed[j]
      {
        assert UpperChar(value[j]) == Upper(value)[j];
      }
    }
  }

  lemma LowerShows(address: string, network: Network, i: nat, c: char)
    requires DecodeLower(address, network).Some? && i < |address| && c != address[i]
    ensures DecodeLower(address[i := c], network).None?
  {
    hide DecodeData, Fits, CHARSET, Read, HrpExpand, Feed, LastIndexOf;
    var hrp := NetworkHrp(network);
    var changed := address[i := c];
    var separator, other := LastIndexOf(address, '1'), LastIndexOf(changed, '1');
    assert changed[separator] == '1' || i == separator;
    assert '1' !in hrp;
    assert i < separator ==> changed[..separator][i] != address[..separator][i];
    if DecodeLower(changed, network).Some? {
      assert other == |hrp| == separator;
      assert i > separator;
      var rest, k := address[separator + 1..], i - separator - 1;
      assert changed[separator + 1..] == rest[k := c];
      RestShows(hrp, rest, k, c);
    }
  }

  lemma RestShows(hrp: string, rest: string, k: nat, c: char)
    requires exists network :: hrp == NetworkHrp(network)
    requires |rest| >= 6 && k < |rest| && c != rest[k]
    requires Read(CHARSET, rest).Some? && Read(CHARSET, rest[k := c]).Some?
    requires DecodeData(hrp, Read(CHARSET, rest).value).Some?
    ensures DecodeData(hrp, Read(CHARSET, rest[k := c]).value).None?
  {
    hide CHARSET, Read, HrpExpand, Feed, Regroup, Fits, IsSymbol;
    var network :| hrp == NetworkHrp(network);
    HrpExpands(network);
    var a, b := Read(CHARSET, rest).value, Read(CHARSET, rest[k := c]).value;
    SymbolsFit(a);
    SymbolsFit(b);
    ReadThenSpell(CHARSET, rest);
    ReadThenSpell(CHARSET, rest[k := c]);
    CharsetIsDistinct();
    assert b == a[k := b[k]] by {
      forall j | 0 <= j < |a| && j != k
        ensures a[j] == b[j]
      {
        assert CHARSET[a[j]] == rest[j] == CHARSET[b[j]];
      }
    }
    var head := HrpExpand(hrp);
    assert head + b == (head + a)[|head| + k := b[k]];
    OneSymbolShows(head + a, |head| + k, b[k]);
  }

  /** Replacing any two characters, other than by their other case, is always rejected. */
  lemma TwoCharactersShow(value: string, network: Network, i: nat, c: char, j: nat, d: char)
    requires Decode(value, network).Some? && i < j < |value|
    requires LowerChar(c) != LowerChar(value[i]) && LowerChar(d) != LowerChar(value[j])
    ensures Decode(value[i := c][j := d], network).None?
  {
    hide AddressOf, DecodeLower, HexOf, BytesOf, Lower, Upper, Fits, IsProgramHex, LowerChar;
    LowerOnce(value, i, c);
    LowerOnce(value[i := c], j, d);
    LowerTwoShow(Lower(value), network, i, LowerChar(c), j, LowerChar(d));
  }

  lemma LowerTwoShow(address: string, network: Network, i: nat, c: char, j: nat, d: char)
    requires DecodeLower(address, network).Some? && i < j < |address| && c != address[i] && d != address[j]
    ensures DecodeLower(address[i := c][j := d], network).None?
  {
    hide DecodeLower, DecodeData, Fits, CHARSET, Read, HrpExpand, NetworkHrp;
    var hrp := NetworkHrp(network);
    var changed := address[i := c][j := d];
    DecodedParts(address, network);
    DecodedIsShort(address, network);
    assert i < |hrp| ==> changed[..|hrp|][i] != address[..|hrp|][i];
    if DecodeLower(changed, network).Some? {
      DecodedParts(changed, network);
      assert i > |hrp|;
      var rest, k, l := address[|hrp| + 1..], i - |hrp| - 1, j - |hrp| - 1;
      assert changed[|hrp| + 1..] == rest[k := c][l := d];
      RestTwoShow(hrp, rest, k, c, l, d);
    }
  }

  predicate HasParts(address: string, hrp: string) {
    && |hrp| + 7 <= |address| && address[..|hrp|] == hrp && address[|hrp|] == '1'
    && match Read(CHARSET, address[|hrp| + 1..])
       case None => false
       case Some(data) => DecodeData(hrp, data).Some?
  }

  lemma DecodedParts(address: string, network: Network)
    requires DecodeLower(address, network).Some?
    ensures HasParts(address, NetworkHrp(network))
  {
    hide DecodeData, Fits, CHARSET, Read, HrpExpand, NetworkHrp, LastIndexOf;
    assert LastIndexOf(address, '1') == |NetworkHrp(network)|;
  }

  lemma DecodedIsShort(address: string, network: Network)
    requires DecodeLower(address, network).Some?
    ensures |address| <= |NetworkHrp(network)| + 62
  {
    hide DecodeLower, Fits, NetworkHrp, Complete;
    var program := DecodeLower(address, network).value;
    DecodesToProgram(address, network, program);
    AddressLength(program, network);
  }

  lemma AddressLength(program: seq<int>, network: Network)
    requires |program| == 32 && Fits(program, 8)
    ensures |AddressOf(program, network)| == |NetworkHrp(network)| + 60
  {
    hide Fits, CHARSET, Regroup, Complete, NetworkHrp;
    NarrowThenWiden(program, 8, 5);
  }

  lemma RestTwoShow(hrp: string, rest: string, k: nat, c: char, l: nat, d: char)
    requires exists network :: hrp == NetworkHrp(network)
    requires 6 <= |rest| <= 61 && k < l < |rest| && c != rest[k] && d != rest[l]
    requires Read(CHARSET, rest).Some? && Read(CHARSET, rest[k := c][l := d]).Some?
    requires DecodeData(hrp, Read(CHARSET, rest).value).Some?
    ensures DecodeData(hrp, Read(CHARSET, rest[k := c][l := d]).value).None?
  {
    hide CHARSET, Read, HrpExpand, Feed, Regroup, Fits, IsSymbol;
    var network :| hrp == NetworkHrp(network);
    HrpExpands(network);
    var changed := rest[k := c][l := d];
    var a, b := Read(CHARSET, rest).value, Read(CHARSET, changed).value;
    SymbolsFit(a);
    SymbolsFit(b);
    ReadThenSpell(CHARSET, rest);
    ReadThenSpell(CHARSET, changed);
    CharsetIsDistinct();
    assert b == a[k := b[k]][l := b[l]] by {
      forall m | 0 <= m < |a| && m != k && m != l
        ensures a[m] == b[m]
      {
        assert CHARSET[a[m]] == rest[m] == CHARSET[b[m]];
      }
    }
    var head := HrpExpand(hrp);
    assert head + b == (head + a)[|head| + k := b[k]][|head| + l := b[l]];
    TwoSymbolsShow(head + a, |head| + k, b[k], |head| + l, b[l]);
  }

  // ----- the methods --------------------------------------------------------------------------

  method EncodeCarrierAddress(witnessProgramHex: string, network: Network) returns (r: Result<string>)
    ensures r == Encode(witnessProgramHex, network)
  {
    hide Regroup, Feed, CHARSET, HEX, IsSymbol, HrpExpand, BytesOf, Fits;
    if !IsProgramHex(witnessProgramHex) {
      return Err(BadProgram);
    }
    var hrp := NetworkHrp(network);
    var program := BytesOf(witnessProgramHex);
    var converted := ConvertBits(program, 8, 5, true);
    NarrowThenWiden(program, 8, 5);
    SymbolsFit(converted.value);
    var data := [0] + converted.value;
    HrpExpands(network);
    BlankSymbols();
    var checksum := Polymod(HrpExpand(hrp) + data + Blank(6));
    var residue := Xor(checksum, 1);
    assert HrpExpand(hrp) + data + Blank(6) == (HrpExpand(hrp) + data) + Blank(6);
    SymbolsFit(data + Unpacked(residue));
    assert data == PayloadOf(program);
    return Ok(hrp + "1" + Spell(CHARSET, data + Unpacked(residue)));
  }

  lemma BlankSymbols()
    ensures Symbols(Blank(6)) && IsSymbol(0)
  {
  }

  /** The loop over the characters after the separator. */
  method ReadSymbols(rest: string) returns (r: Option<seq<int>>)
    ensures r == Read(CHARSET, rest)
  {
    hide CHARSET;
    var data: seq<int> := [];
    for i := 0 to |rest|
      invariant Read(CHARSET, rest[..i]) == Some(data)
    {
      var index := IndexOf(CHARSET, rest[i]);
      ReadOneMore(CHARSET, rest, i);
      if index.None? {
        return None;
      }
      data := data + [index.value];
    }
    assert rest[..|rest|] == rest;
    return Some(data);
  }

  method DecodeCarrierAddress(value: string, network: Network) returns (r: Option<CarrierAddress>)
    ensures r == Decode(value, network)
  {
    hide Regroup, Feed, CHARSET, HrpExpand, Fits, Upper, LowerChar, IsSymbol, Read, HexOf, NetworkHrp;
    if |value| < 14 || |value| > 90 || !SingleCase(value) {
      return None;
    }
    var address := Lower(value);
    var separator := LastIndexOf(address, '1');
    if separator < 1 || separator + 7 > |address| {
      return None;
    }
    var hrp := address[..separator];
    if hrp != NetworkHrp(network) {
      return None;
    }
    var rest := address[separator + 1..];
    var read := ReadSymbols(rest);
    if read.None? {
      return None;
    }
    var data := read.value;
    SymbolsFit(data);
    HrpExpands(network);
    var checksum := Polymod(HrpExpand(hrp) + data);
    if checksum != 1 {
      return None;
    }
    var payload := data[..|data| - 6];
    if payload == [] || payload[0] != 0 {
      return None;
    }
    var program := ConvertBits(payload[1..], 5, 8, false);
    if program.None? || |program.value| != 32 {
      return None;
    }
    WidenThenNarrow(payload[1..], 5, 8);
    return Some(CarrierAddress(address, HexOf(program.value)));
  }

  lemma ReadOneMore(alphabet: string, text: string, i: nat)
    requires i < |text|
    ensures Read(alphabet, text[..i]).Some? ==>
              Read(alphabet, text[..i + 1]) ==
              match IndexOf(alphabet, text[i])
              case None => None
              case Some(last) => Some(Read(alphabet, text[..i]).value + [last])
    ensures Read(alphabet, text[..i + 1]).None? ==> Read(alphabet, text).None?
  {
    assert text[..i + 1][..i] == text[..i];
    ReadsExactly(alphabet, text);
    ReadsExactly(alphabet, text[..i + 1]);
    assert forall j :: 0 <= j <= i ==> text[..i + 1][j] == text[j];
  }
}
