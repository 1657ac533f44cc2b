/** How the reducer reads marker candidates: against the marker layouts and the push encodings. */
module Markers {
  import opened Prelude
  import opened Bitcoin
  import opened Tandem
  import opened Reducer

  // ----- the attempted type -------------------------------------------------------------------

  /** The number of an event type. */
  function CodeOf(t: EventType): int {
    match t
    case INIT => 0
    case CREATE => 1
    case MARK => 2
    case ROTATE => 3
    case CLOSE => 4
    case REFUND => 5
    case EXITED_NONCANONICAL => 6
    case INVALID => 7
  }

  /** The attempted type has the opcode for its number, if format and opcode are defined, and else is INVALID. */
  lemma AttemptedTypeIsOpcode(c: Candidate)
    ensures
      if |c.payload| > 6 && c.payload[4] == 1 && c.payload[6] <= 4 then CodeOf(AttemptedType(c)) == c.payload[6] as int
      else AttemptedType(c) == INVALID
  {
  }

  // ----- the namespace ------------------------------------------------------------------------

  /** The widths of a marker's fields after magic, format, network and opcode; the second is the namespace. */
  function Widths(opcode: int): seq<nat> {
    match opcode
    case 1 => [1, 32]
    case 2 => [1, 32, 4, 1, 1, 32]
    case 3 => [1, 32, 4]
    case 4 => [1, 32, 4, 1, 3, 32]
    case _ => []
  }

  function Flat(fields: seq<Bytes>): Bytes {
    if fields == [] then [] else fields[0] + Flat(fields[1..])
  }

  function Total(widths: seq<nat>): nat {
    if widths == [] then 0 else widths[0] + Total(widths[1..])
  }

  ghost predicate HasWidths(fields: seq<Bytes>, widths: seq<nat>) {
    |fields| == |widths| && forall i :: 0 <= i < |fields| ==> |fields[i]| == widths[i]
  }

  /** The payload is laid out as a marker of an operation other than INIT. */
  ghost predicate IsLaidOut(payload: Bytes, opcode: int, head: Bytes, fields: seq<Bytes>) {
    && 1 <= opcode <= 4 && |head| == 7 && head[4] == 1 && head[6] as int == opcode
    && HasWidths(fields, Widths(opcode)) && payload == head + Flat(fields)
  }

  lemma {:induction false} FlatLength(fields: seq<Bytes>, widths: seq<nat>)
    requires HasWidths(fields, widths)
    ensures |Flat(fields)| == Total(widths)
  {
    if fields != [] {
      FlatLength(fields[1..], widths[1..]);
    }
  }

  lemma TotalOf(width: nat, rest: seq<nat>)
    ensures Total([width] + rest) == width + Total(rest)
  {
    assert ([width] + rest)[1..] == rest;
  }

  lemma LengthsAreTotals(opcode: int)
    requires 1 <= opcode <= 4
    ensures PayloadLength(opcode) == 7 + Total(Widths(opcode))
    ensures |Widths(opcode)| >= 2 && Widths(opcode)[0] == 1 && Widths(opcode)[1] == 32
  {
    hide Total;
    var w := Widths(opcode);
    var reserved := if opcode == 2 then 1 else 3;
    TotalOfNone();
    TotalOf(32, []);
    TotalOf(4, []);
    TotalOf(reserved, [32]);
    TotalOf(1, [reserved, 32]);
    TotalOf(4, [1, reserved, 32]);
    TotalOf(32, w[2..]);
    TotalOf(1, w[1..]);
    assert w[1..] == [32] + w[2..] && w == [1] + w[1..];
    assert w[2..] == match opcode case 1 => [] case 3 => [4] + [] case _ => [4] + [1, reserved, 32];
    assert [1, reserved, 32] == [1] + [reserved, 32] && [reserved, 32] == [reserved] + [32] && [32] == [32] + [];
  }

  lemma TotalOfNone()
    ensures Total([]) == 0
  {
  }

  /** The second field of a laid-out payload. */
  lemma NamespaceIsField(payload: Bytes, opcode: int, head: Bytes, fields: seq<Bytes>)
    requires IsLaidOut(payload, opcode, head, fields)
    ensures |payload| == PayloadLength(opcode) && |fields| >= 2 && payload[8..40] == fields[1]
    ensures payload[4] == 1 && payload[6] as int == opcode
  {
    LengthsAreTotals(opcode);
    FlatLength(fields, Widths(opcode));
    assert Flat(fields) == fields[0] + (fields[1] + Flat(fields[1..][1..]));
  }

  /** A complete candidate has the namespace of its layout, and no other candidate has any. */
  lemma NamespaceOfLayout(c: Candidate, opcode: int, head: Bytes, fields: seq<Bytes>)
    requires c.complete && IsLaidOut(c.payload, opcode, head, fields)
    ensures |fields| >= 2 && PopulationNamespace(c) == Some(fields[1])
  {
    NamespaceIsField(c.payload, opcode, head, fields);
  }

  lemma {:induction false} Cut(bytes: Bytes, widths: seq<nat>) returns (fields: seq<Bytes>)
    requires |bytes| == Total(widths)
    ensures HasWidths(fields, widths) && Flat(fields) == bytes
  {
    if widths == [] {
      fields := [];
    } else {
      var rest := Cut(bytes[widths[0]..], widths[1..]);
      fields := [bytes[..widths[0]]] + rest;
      assert fields[1..] == rest;
    }
  }

  lemma OnlyLayoutsHaveNamespaces(c: Candidate) returns (opcode: int, head: Bytes, fields: seq<Bytes>)
    requires PopulationNamespace(c).Some?
    ensures c.complete && IsLaidOut(c.payload, opcode, head, fields)
    ensures |fields| >= 2 && PopulationNamespace(c) == Some(fields[1])
  {
    opcode, head := c.payload[6] as int, c.payload[..7];
    LengthsAreTotals(opcode);
    fields := Cut(c.payload[7..], Widths(opcode));
    assert c.payload == head + Flat(fields);
    NamespaceIsField(c.payload, opcode, head, fields);
  }

  // ----- the declared length ------------------------------------------------------------------

  function LittleEndian(n: nat, count: nat): Bytes {
    if count == 0 then [] else [(n % 256) as Byte] + LittleEndian(n / 256, count - 1)
  }

  /** OP_RETURN and the opcode and length of a push, in one of its four forms. */
  function PushHead(n: nat, form: nat): Bytes
    requires form == 0 ==> n <= 75
  {
    if form == 0 then [0x6a, n as Byte]
    else if form == 1 then [0x6a, 0x4c] + LittleEndian(n, 1)
    else if form == 2 then [0x6a, 0x4d] + LittleEndian(n, 2)
    else [0x6a, 0x4e] + LittleEndian(n, 4)
  }

  lemma OneByte(n: nat)
    ensures LittleEndian(n, 1) == [(n % 0x100) as Byte]
  {
  }

  lemma TwoBytes(n: nat)
    ensures LittleEndian(n, 2) == [(n % 0x100) as Byte, (n / 0x100 % 0x100) as Byte]
  {
    OneByte(n / 0x100);
  }

  lemma FourBytes(n: nat)
    ensures LittleEndian(n, 4) == [(n % 0x100) as Byte, (n / 0x100 % 0x100) as Byte] + LittleEndian(n / 0x1_0000, 2)
  {
    assert LittleEndian(n / 0x100, 3) == [(n / 0x100 % 0x100) as Byte] + LittleEndian(n / 0x100 / 0x100, 2);
    assert n / 0x100 / 0x100 == n / 0x1_0000;
  }

  lemma FourBytesMake(n: nat)
    requires n < 0x1_0000_0000
    ensures n == n % 0x100 + 0x100 * (n / 0x100 % 0x100) + 0x1_0000 * (n / 0x1_0000 % 0x100) +
                 0x100_0000 * (n / 0x1_0000 / 0x100 % 0x100)
  {
  }

  /** The declared length is the one that the push encodes, whatever follows it. */
  lemma DeclaredLengthIsPushed(n: nat, form: nat, rest: Bytes)
    requires match form case 0 => 1 <= n <= 75 case 1 => n < 0x100 case 2 => n < 0x1_0000 case _ => n < 0x1_0000_0000
    ensures DeclaredLength(PushHead(n, form) + rest) == n
  {
    OneByte(n);
    TwoBytes(n);
    FourBytes(n);
    TwoBytes(n / 0x1_0000);
    FourBytesMake(n);
    hide LittleEndian;
  }

  // ----- the remaining candidates -------------------------------------------------------------

  /** The output is a marker candidate that is not the INIT of another population. */
  predicate Remains(p: Protocol, tx: Tx, initTxid: Txid, output: Output) {
    && |output.script| > 0 && output.script[0] == 0x6a && p.inspect(output.script).candidate
    && var payload := p.inspect(output.script).payload;
       tx.txid == initTxid || !(|payload| > 6 && payload[6] == 0)
  }

  /** The candidates are those of the outputs at these ascending places, which are all that remain. */
  ghost predicate AreRemaining(p: Protocol, tx: Tx, initTxid: Txid, n: nat, candidates: seq<Candidate>, at: seq<nat>)
    requires n <= |tx.outputs|
  {
    && |at| == |candidates| && (forall i, j :: 0 <= i < j < |at| ==> at[i] < at[j])
    && (forall i :: 0 <= i < |at| ==> at[i] < n && IsOf(p, tx.outputs[at[i]], candidates[i]))
    && (forall k: nat :: k < n ==> (Remains(p, tx, initTxid, tx.outputs[k]) <==> k in at))
  }

  predicate IsOf(p: Protocol, output: Output, c: Candidate) {
    && c.vout == output.n && c.payload == p.inspect(output.script).payload
    && (c.complete <==> DeclaredLength(output.script) == |c.payload|)
  }

  lemma CandidateRemains(p: Protocol, tx: Tx, initTxid: Txid, output: Output)
    ensures CandidateOf(p, tx, initTxid, output).Some? <==> Remains(p, tx, initTxid, output)
    ensures CandidateOf(p, tx, initTxid, output).Some? ==> IsOf(p, output, CandidateOf(p, tx, initTxid, output).value)
  {
    hide DeclaredLength;
  }

  lemma {:induction false} CandidatesRemain(p: Protocol, tx: Tx, initTxid: Txid, n: nat) returns (at: seq<nat>)
    requires n <= |tx.outputs|
    ensures AreRemaining(p, tx, initTxid, n, Candidates(p, tx, initTxid, n), at)
  {
    hide DeclaredLength, IsOf, Remains;
    at := [];
    if n > 0 {
      at := CandidatesRemain(p, tx, initTxid, n - 1);
      CandidateRemains(p, tx, initTxid, tx.outputs[n - 1]);
      if CandidateOf(p, tx, initTxid, tx.outputs[n - 1]).Some? {
        at := at + [n - 1];
      }
    }
  }

  // ----- the heights of the INIT --------------------------------------------------------------

  /** The first output with a number. */
  predicate IsFirstOf(outputs: seq<Output>, k: nat, number: nat) {
    k < |outputs| && outputs[k].n == number && forall j :: 0 <= j < k ==> outputs[j].n != number
  }

  /** The script of this output parses as an INIT marker with these heights. */
  predicate GivesHeights(p: Protocol, output: Output, open: nat, close: nat) {
    match p.parse(output.script, p.binding.networkCode)
    case Some(InitMarker(o, c, _)) => o == open && c == close
    case _ => false
  }

  /**
   * The heights are read exactly when one output remains, counting the transaction's own INIT candidates, and the
   * first output of its number holds an INIT marker: they are that marker's.
   */
  lemma InitHeightsExactly(p: Protocol, tx: Tx, open: nat, close: nat) returns (at: seq<nat>)
    ensures AreRemaining(p, tx, tx.txid, |tx.outputs|, RemainingCandidates(p, tx, tx.txid), at)
    ensures InitHeights(p, tx) == Some((open, close)) <==>
            && |at| == 1
            && exists k: nat :: IsFirstOf(tx.outputs, k, tx.outputs[at[0]].n) &&
                GivesHeights(p, tx.outputs[k], open, close)
  {
    hide IsOf, Remains, Candidates;
    at := CandidatesRemain(p, tx, tx.txid, |tx.outputs|);
    if |at| == 1 {
      OneRemains(p, tx, at);
      var number := tx.outputs[at[0]].n;
      var script := ScriptAt(tx.outputs, number);
      if script.Some? {
        var k :| 0 <= k < |tx.outputs| && tx.outputs[k] == Output(number, script.value)
          && forall j :: 0 <= j < k ==> tx.outputs[j].n != number;
        assert IsFirstOf(tx.outputs, k, number);
      }
    }
  }

  lemma OneRemains(p: Protocol, tx: Tx, at: seq<nat>)
    requires AreRemaining(p, tx, tx.txid, |tx.outputs|, RemainingCandidates(p, tx, tx.txid), at) && |at| == 1
    ensures |RemainingCandidates(p, tx, tx.txid)| == 1 && at[0] < |tx.outputs|
    ensures RemainingCandidates(p, tx, tx.txid)[0].vout == tx.outputs[at[0]].n
  {
    hide Remains, Candidates;
  }
}
