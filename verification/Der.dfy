/** Strict DER signatures with a hash-type byte (src/indexer/evidence.ts). Bytes are numbers below 256. */
module DerSignatures {
  import opened Regrouping

  type Bytes = bytes: seq<int> | forall i :: 0 <= i < |bytes| ==> 0 <= bytes[i] < 256

  // ----- the encoding -------------------------------------------------------------------------

  /** The bytes of a number without leading zero bytes; zero is one zero byte. */
  function Magnitude(n: nat): (r: Bytes)
    ensures r != [] && (|r| > 1 ==> r[0] != 0)
    ensures n > 0 ==> r[0] != 0
  {
    if n < 256 then [n] else Magnitude(n / 256) + [n % 256]
  }

  /** The shortest encoding of a non-negative integer whose first bit is a clear sign bit. */
  function DerInteger(n: nat): (r: Bytes)
    ensures r != []
  {
    if Magnitude(n)[0] < 0x80 then Magnitude(n) else [0] + Magnitude(n)
  }

  /** SEQUENCE of INTEGER r and INTEGER s, then the hash type. */
  function DerEncode(r: nat, s: nat, hashType: int): seq<int> {
    var rb, sb := DerInteger(r), DerInteger(s);
    [0x30, |rb| + |sb| + 4, 0x02, |rb|] + rb + [0x02, |sb|] + sb + [hashType]
  }

  // ----- the check ----------------------------------------------------------------------------

  /** An element, or the default the source supplies for a missing one. */
  function At(bytes: seq<int>, i: int, missing: int): int {
    if 0 <= i < |bytes| then bytes[i] else missing
  }

  predicate Negative(b: int) {
    b >= 0x80
  }

  predicate IsStrictDer(sig: Bytes, missing: int) {
    if |sig| < 9 || |sig| > 73 then false
    else if sig[0] != 0x30 then false
    else if sig[1] != |sig| - 3 then false
    else
      var lenR := At(sig, 3, missing);
      if 5 + lenR >= |sig| then false
      else
        var lenS := At(sig, 5 + lenR, missing);
        if lenR + lenS + 7 != |sig| then false
        else if sig[2] != 0x02 || lenR == 0 || Negative(At(sig, 4, missing)) then false
        else if lenR > 1 && sig[4] == 0 && !Negative(At(sig, 5, missing)) then false
        else if At(sig, lenR + 4, -1) != 0x02 || lenS == 0 || Negative(At(sig, lenR + 6, missing)) then false
        else if lenS > 1 && At(sig, lenR + 6, -1) == 0 && !Negative(At(sig, lenR + 7, missing)) then false
        else true
  }

  /**
   * `isStrictDerWithHashType`: a missing element reads as 0. Whatever it read as, the answer would be the
   * same, so no index is ever out of range.
   */
  predicate IsStrictDerWithHashType(sig: Bytes)
    ensures forall missing :: IsStrictDer(sig, missing) == IsStrictDerWithHashType(sig)
  {
    IsStrictDer(sig, 0)
  }

  // ----- integers -----------------------------------------------------------------------------

  /** Non-empty, not negative, and no zero byte in front of a byte that is not negative. */
  predicate IsMinimal(bytes: Bytes) {
    && bytes != [] && !Negative(bytes[0])
    && (|bytes| > 1 && bytes[0] == 0 ==> Negative(bytes[1]))
  }

  lemma PowerOfEight()
    ensures Pow2(8) == 256
  {
    assert Pow2(4) == 16;
  }

  lemma NumberOfByte(front: Bytes, last: int)
    requires 0 <= last < 256
    ensures Number(front + [last], 8) == Number(front, 8) * 256 + last
  {
    PowerOfEight();
    assert (front + [last])[..|front|] == front;
  }

  lemma NumberOfBytes(bytes: Bytes)
    ensures Number(bytes, 8) >= 0
  {
    PowerOfEight();
    NumberFits(bytes, 8);
  }

  lemma {:induction false} MagnitudeReadsBack(n: nat)
    ensures Number(Magnitude(n), 8) == n
  {
    if n < 256 {
      NumberOfByte([], n);
      assert [] + [n] == [n];
    } else {
      MagnitudeReadsBack(n / 256);
      NumberOfByte(Magnitude(n / 256), n % 256);
    }
  }

  lemma {:induction false} NumberReadsBack(bytes: Bytes)
    requires bytes != [] && (|bytes| > 1 ==> bytes[0] != 0)
    ensures Number(bytes, 8) >= 0 && Magnitude(Number(bytes, 8)) == bytes
    ensures bytes[0] != 0 ==> Number(bytes, 8) > 0
  {
    hide Number;
    var front, last := bytes[..|bytes| - 1], bytes[|bytes| - 1];
    assert bytes == front + [last];
    NumberOfBytes(bytes);
    NumberOfByte(front, last);
    if front == [] {
      NumberOfNothing();
    } else {
      NumberReadsBack(front);
      var q, n := Number(front, 8), Number(bytes, 8);
      assert n / 256 == q && n % 256 == last;
    }
  }

  lemma NumberOfNothing()
    ensures Number([], 8) == 0
  {
  }

  lemma {:induction false} LeadingZero(bytes: Bytes)
    ensures Number([0] + bytes, 8) == Number(bytes, 8)
  {
    hide Number;
    if bytes == [] {
      NumberOfByte([], 0);
      NumberOfNothing();
      assert [] + [0] == [0] + bytes;
    } else {
      var front, last := bytes[..|bytes| - 1], bytes[|bytes| - 1];
      LeadingZero(front);
      NumberOfByte(front, last);
      NumberOfByte([0] + front, last);
      assert front + [last] == bytes && [0] + front + [last] == [0] + bytes;
    }
  }

  /** The minimal byte strings are the encodings of the non-negative integers, one each. */
  lemma MinimalIsEncoding(bytes: Bytes, n: nat)
    ensures IsMinimal(bytes) && Number(bytes, 8) == n <==> bytes == DerInteger(n)
  {
    hide Number, Magnitude;
    if bytes == DerInteger(n) {
      MagnitudeReadsBack(n);
      LeadingZero(Magnitude(n));
    }
    if IsMinimal(bytes) && Number(bytes, 8) == n {
      if |bytes| > 1 && bytes[0] == 0 {
        assert bytes == [0] + bytes[1..];
        LeadingZero(bytes[1..]);
        NumberReadsBack(bytes[1..]);
      } else {
        NumberReadsBack(bytes);
      }
    }
  }

  // ----- signatures ---------------------------------------------------------------------------

  /** `signature.subarray(4, 4 + lenR)` and `signature.subarray(6 + lenR, 6 + lenR + lenS)`. */
  function PartR(sig: seq<int>): seq<int>
    requires |sig| > 3 && 0 <= sig[3] && 4 + sig[3] <= |sig|
  {
    sig[4..4 + sig[3]]
  }

  function PartS(sig: seq<int>): seq<int>
    requires |sig| > 3 && 0 <= sig[3] && 5 + sig[3] < |sig| && 0 <= sig[5 + sig[3]]
    requires 6 + sig[3] + sig[5 + sig[3]] <= |sig|
  {
    sig[6 + sig[3]..6 + sig[3] + sig[5 + sig[3]]]
  }

  /** The lengths a strict signature declares fit it. */
  lemma StrictParts(sig: Bytes)
    requires IsStrictDerWithHashType(sig)
    ensures 5 + sig[3] < |sig| && sig[3] + sig[5 + sig[3]] + 7 == |sig|
    ensures IsMinimal(PartR(sig)) && IsMinimal(PartS(sig))
    ensures sig == [0x30, |PartR(sig)| + |PartS(sig)| + 4, 0x02, |PartR(sig)|] + PartR(sig)
                   + [0x02, |PartS(sig)|] + PartS(sig) + [sig[|sig| - 1]]
  {
  }

  lemma EncodedParts(sig: Bytes, rb: Bytes, sb: Bytes, hashType: int)
    requires sig == [0x30, |rb| + |sb| + 4, 0x02, |rb|] + rb + [0x02, |sb|] + sb + [hashType]
    requires |sig| <= 73 && IsMinimal(rb) && IsMinimal(sb)
    ensures IsStrictDerWithHashType(sig)
    ensures PartR(sig) == rb && PartS(sig) == sb && sig[|sig| - 1] == hashType
  {
    var lenR := |rb|;
    assert sig[4..4 + lenR] == rb;
    assert sig[5 + lenR] == |sb|;
    assert sig[6 + lenR..6 + lenR + |sb|] == sb;
    assert sig[4] == rb[0] && (lenR > 1 ==> sig[5] == rb[1]);
    assert sig[6 + lenR] == sb[0] && (|sb| > 1 ==> sig[7 + lenR] == sb[1]);
  }

  /** The two integers a strict signature holds: `derInteger` of its slices. */
  function ValueR(sig: Bytes): (r: nat)
    requires IsStrictDerWithHashType(sig)
  {
    StrictParts(sig);
    NumberOfBytes(PartR(sig));
    Number(PartR(sig), 8)
  }

  function ValueS(sig: Bytes): (s: nat)
    requires IsStrictDerWithHashType(sig)
  {
    StrictParts(sig);
    NumberOfBytes(PartS(sig));
    Number(PartS(sig), 8)
  }

  /**
   * Strict signatures of at most 73 bytes are exactly the encodings of pairs of non-negative integers with
   * a hash type, and the slices recover the pair.
   */
  lemma StrictIsEncoding(sig: Bytes, r: nat, s: nat, hashType: int)
    ensures IsStrictDerWithHashType(sig) && ValueR(sig) == r && ValueS(sig) == s && sig[|sig| - 1] == hashType
            <==> sig == DerEncode(r, s, hashType) && |sig| <= 73
  {
    hide Number, DerInteger, IsMinimal, DerEncode;
    if IsStrictDerWithHashType(sig) && ValueR(sig) == r && ValueS(sig) == s && sig[|sig| - 1] == hashType {
      StrictEncodes(sig);
    }
    if sig == DerEncode(r, s, hashType) && |sig| <= 73 {
      EncodingIsStrict(sig, r, s, hashType);
    }
  }

  lemma StrictEncodes(sig: Bytes)
    requires IsStrictDerWithHashType(sig)
    ensures sig == DerEncode(ValueR(sig), ValueS(sig), sig[|sig| - 1]) && |sig| <= 73
  {
    hide Number, DerInteger, IsMinimal;
    StrictParts(sig);
    MinimalIsEncoding(PartR(sig), ValueR(sig));
    MinimalIsEncoding(PartS(sig), ValueS(sig));
  }

  lemma EncodingIsStrict(sig: Bytes, r: nat, s: nat, hashType: int)
    requires sig == DerEncode(r, s, hashType) && |sig| <= 73
    ensures IsStrictDerWithHashType(sig) && ValueR(sig) == r && ValueS(sig) == s && sig[|sig| - 1] == hashType
  {
    hide Number, DerInteger, IsMinimal, IsStrictDerWithHashType, PartR, PartS;
    MinimalIsEncoding(DerInteger(r), r);
    MinimalIsEncoding(DerInteger(s), s);
    EncodedParts(sig, DerInteger(r), DerInteger(s), hashType);
  }

  /** What one signature contributes to the evidence, apart from the key. */
  datatype SignatureEvidence = SignatureEvidence(
    sighashType: int, cryptographicallyVerified: bool, strictDer: bool, lowS: bool)

  const SIGHASH_ALL: int := 1

  ghost predicate IsSignature(sig: Bytes, r: nat, s: nat, hashType: int) {
    sig == DerEncode(r, s, hashType) && |sig| <= 73
  }

  /**
   * `verifies` is the curve's answer for r, s and the key over the transaction digest; it is false where the
   * library throws. The evidence speaks of the encoded pair, and of nothing if there is none.
   */
  method CheckSignature(signature: Bytes, publicKey: Bytes, halfOrder: nat, verifies: (nat, nat, Bytes) -> bool)
    returns (e: SignatureEvidence)
    ensures e.strictDer <==> exists r: nat, s: nat, t: int :: IsSignature(signature, r, s, t)
    ensures forall r: nat, s: nat, t: int :: IsSignature(signature, r, s, t) ==>
              && e.sighashType == t && (e.lowS <==> 0 < s <= halfOrder)
              && (e.cryptographicallyVerified <==> t == SIGHASH_ALL && |publicKey| == 33 && verifies(r, s, publicKey))
    ensures !e.strictDer ==> !e.lowS && !e.cryptographicallyVerified
    ensures e.sighashType == if signature == [] then -1 else signature[|signature| - 1]
  {
    hide DerEncode, Number, IsStrictDerWithHashType, IsMinimal, ValueR, ValueS;
    var sighashType := if |signature| > 0 then At(signature, |signature| - 1, -1) else -1;
    var strictDer := IsStrictDerWithHashType(signature);
    var lowS, cryptographicallyVerified := false, false;
    if strictDer {
      StrictParts(signature);
      var r, s := ValueR(signature), ValueS(signature);
      lowS := s > 0 && s <= halfOrder;
      if sighashType == SIGHASH_ALL && |publicKey| == 33 {
        cryptographicallyVerified := verifies(r, s, publicKey);
      }
      StrictIsEncoding(signature, r, s, sighashType);
      assert IsSignature(signature, r, s, sighashType);
    }
    forall r: nat, s: nat, t: int | IsSignature(signature, r, s, t)
      ensures strictDer && ValueR(signature) == r && ValueS(signature) == s && sighashType == t
    {
      StrictIsEncoding(signature, r, s, t);
    }
    return SignatureEvidence(sighashType, cryptographicallyVerified, strictDer, lowS);
  }
}
