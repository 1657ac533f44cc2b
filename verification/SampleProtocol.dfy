/**
 * One validator that keeps the contract, with every operation in it. Its rules are not the
 * specification's: an INIT marker is 11 bytes long, and every other operation is read off the
 * transaction version.
 */
module SampleProtocol {
  import opened Prelude
  import opened Bitcoin
  import opened Tandem

  function ExitOf(carrier: CarrierEvidence): ValidationEvent {
    ValidationEvent(TerminalNoncanonical, None, Some(carrier.objectKey), 0x20)
  }

  function Exits(carriers: seq<CarrierEvidence>): seq<ValidationEvent> {
    seq(|carriers|, i requires 0 <= i < |carriers| => ExitOf(carriers[i]))
  }

  function OperationOf(version: int): Operation {
    if version == 2 then OpMark else if version == 3 then OpRotate else if version == 4 then OpClose else OpRefund
  }

  function MarkerOf(operation: Operation, carrier: CarrierEvidence): Option<Marker> {
    match operation
    case OpMark => Some(MarkMarker(carrier.stateSequence + 1, 0, ZERO32))
    case OpRotate => Some(RotateMarker(carrier.stateSequence + 1))
    case OpClose => Some(CloseMarker(carrier.stateSequence + 1, ZERO32))
    case _ => None
  }

  predicate AreKeys(key0: Bytes, key1: Bytes) {
    |key0| == 33 && |key1| == 33 && key0 != key1
  }

  /** The payload that a script pushes: directly, or behind a two-byte length. */
  function PayloadIn(script: Bytes): Bytes {
    if |script| < 2 || script[0] != 0x6a then []
    else if script[1] <= 75 then script[2..]
    else if script[1] == 0x4d && |script| >= 4 then script[4..]
    else []
  }

  /** Magic, format, network and opcode, then at least four bytes. */
  function Inspect(script: Bytes): Inspection {
    Inspection(|PayloadIn(script)| >= 11, PayloadIn(script))
  }

  function HeightIn(payload: Bytes): nat
    requires |payload| == 11
  {
    payload[7] as int + 0x100 * payload[8] as int + 0x1_0000 * payload[9] as int + 0x100_0000 * payload[10] as int
  }

  /** An INIT marker is 11 bytes; this sample parses no other. */
  function Parse(script: Bytes): Option<Marker> {
    var payload := PayloadIn(script);
    if |payload| == 11 && payload[6] == 0 then
      Some(InitMarker(HeightIn(payload), HeightIn(payload) + FOUNDING_WINDOW, []))
    else None
  }

  predicate IsCandidate(tx: Tx, initTxid: Txid, script: Bytes) {
    |PayloadIn(script)| >= 11 && (PayloadIn(script)[6] != 0 || tx.txid == initTxid)
  }

  predicate HasCandidate(tx: Tx, initTxid: Txid) {
    exists i :: 0 <= i < |tx.outputs| && IsCandidate(tx, initTxid, tx.outputs[i].script)
  }

  /** A ROTATE must reveal new keys. */
  predicate MayOperate(tx: Tx) {
    2 <= tx.version <= 5 && (OperationOf(tx.version) == OpRotate ==> AreKeys(Revealed(tx, 1), Revealed(tx, 2)))
  }

  function Invalid(operation: Option<Operation>): ValidationEvent {
    ValidationEvent(InvalidNoState, operation, None, 0x1e)
  }

  function JudgeCarrierless(e: Evidence, c: Context): Verdict {
    if e.tx.txid == c.binding.initTxid then
      if c.window.openHeight >= c.window.height + INIT_LEAD
         && c.window.closeHeight == c.window.openHeight + FOUNDING_WINDOW then
        Verdict(true, [ValidationEvent(ValidOperation, Some(OpInit), None, 0)],
                Some(InitMarker(c.window.openHeight, c.window.closeHeight, c.binding.specHash)))
      else Verdict(true, [Invalid(Some(OpInit))], None)
    else if !HasCandidate(e.tx, c.binding.initTxid) then Verdict(false, [], None)
    else if e.height >= c.window.openHeight && e.tx.version == 2 && AreKeys(Revealed(e.tx, 0), Revealed(e.tx, 1)) then
      Verdict(true, [ValidationEvent(ValidOperation, Some(OpCreate), None, 0)], Some(CreateMarker))
    else Verdict(true, [Invalid(None)], None)
  }

  function Judge(e: Evidence, c: Context): Verdict {
    if c.carriers == [] then JudgeCarrierless(e, c)
    else if |c.carriers| == 1 && MayOperate(e.tx) then
      var operation := OperationOf(e.tx.version);
      Verdict(true, [ValidationEvent(ValidOperation, Some(operation), Some(c.carriers[0].objectKey), 0)],
              MarkerOf(operation, c.carriers[0]))
    else Verdict(true, Exits(c.carriers), None)
  }

  /** Like the vendored validator, it throws when a carrier's keys are not in order. */
  function Validate(e: Evidence, c: Context): Option<Verdict> {
    if forall i :: 0 <= i < |c.carriers| ==> AreKeys(c.carriers[i].key0, c.carriers[i].key1) then Some(Judge(e, c))
    else None
  }

  function Sample(binding: Binding): Protocol {
    Protocol(binding, (e, c) => Validate(e, c), (o: Outpoint) => o.vout == 1, (k, l) => AreKeys(k, l),
             s => Inspect(s), (s, n) => Parse(s), (n, t) => t,
             (n, events) => 0, (n, objects) => 0, (r: BlockRootInput) => r.height + 1, n => 0)
  }

  /** The contract can be kept. */
  lemma SampleIsLawful(binding: Binding)
    ensures Lawful(Sample(binding))
  {
    hide LawfulVerdict, IsAnswered, Presented;
    var p := Sample(binding);
    forall e: Evidence, c: Context | Presented(p, e, c)
      ensures p.validate(e, c).Some? && LawfulVerdict(p, e, c, VerdictOf(p, e, c))
      ensures IsAnswered(p, e, c, VerdictOf(p, e, c))
    {
      JudgesLawfully(binding, e, c);
    }
  }

  lemma JudgesLawfully(binding: Binding, e: Evidence, c: Context)
    requires Presented(Sample(binding), e, c)
    ensures
      var p := Sample(binding);
      p.validate(e, c).Some? && LawfulVerdict(p, e, c, VerdictOf(p, e, c)) && IsAnswered(p, e, c, VerdictOf(p, e, c))
  {
    hide RemainingCandidates, IsCandidate, AllExit;
    var p := Sample(binding);
    assert forall i :: 0 <= i < |c.carriers| ==> IsPresented(p, e.tx, c.carriers[i]);
    RemainingAre(p, e.tx, c.binding.initTxid);
    if c.carriers != [] {
      ExitsCoverAll(c.carriers);
    }
  }

  lemma RemainingAre(p: Protocol, tx: Tx, initTxid: Txid)
    requires p.inspect == Sample(p.binding).inspect
    ensures RemainingCandidates(p, tx, initTxid) != [] <==> HasCandidate(tx, initTxid)
  {
    hide Candidates, IsCandidate, Sample;
    CandidatesAre(p, tx, initTxid, |tx.outputs|);
  }

  lemma {:induction false} CandidatesAre(p: Protocol, tx: Tx, initTxid: Txid, n: nat)
    requires p.inspect == Sample(p.binding).inspect && n <= |tx.outputs|
    ensures Candidates(p, tx, initTxid, n) != [] <==>
            exists i :: 0 <= i < n && IsCandidate(tx, initTxid, tx.outputs[i].script)
  {
    hide Sample, IsCandidate, CandidateOf;
    if n > 0 {
      CandidatesAre(p, tx, initTxid, n - 1);
      CandidateIs(p, tx, initTxid, tx.outputs[n - 1]);
    }
  }

  lemma CandidateIs(p: Protocol, tx: Tx, initTxid: Txid, output: Output)
    requires p.inspect == Sample(p.binding).inspect
    ensures CandidateOf(p, tx, initTxid, output).Some? <==> IsCandidate(tx, initTxid, output.script)
  {
    hide DeclaredLength;
    assert p.inspect(output.script) == Inspect(output.script);
  }

  lemma ExitsCoverAll(carriers: seq<CarrierEvidence>)
    requires DistinctCarriers(carriers)
    ensures AllExit(carriers, Exits(carriers))
  {
    forall i | 0 <= i < |carriers|
      ensures NamesOne(carriers, Exits(carriers)[i])
    {
      var own := carriers[i];
      assert Exits(carriers)[i].objectKey == Some(own.objectKey);
    }
  }
}
