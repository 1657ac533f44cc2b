/**
 * The vendored protocol package as the indexer sees it: foreign functions are fields of `Protocol`,
 * and `Lawful` is the contract the indexer relies on.
 */
module Tandem {
  import opened Prelude
  import opened Bitcoin
  import opened StateEngine

  const NO_SEQUENCE: nat := 0xffff_ffff
  const NO_INDEX: nat := 0xffff_ffff
  const ZERO32: Bytes := Zeros(32)
  const ZERO33: Bytes := Zeros(33)
  const INIT_LEAD: nat := 1008
  const FOUNDING_WINDOW: nat := 4320
  const CARRIER_VALUE: nat := 20000

  function Zeros(n: nat): Bytes {
    if n == 0 then [] else Zeros(n - 1) + [0]
  }

  datatype Operation = OpInit | OpCreate | OpMark | OpRotate | OpClose | OpRefund

  datatype EventType = INIT | CREATE | MARK | ROTATE | CLOSE | REFUND | EXITED_NONCANONICAL | INVALID

  datatype ValidityClass = InvalidNoState | ValidOperation | TerminalNoncanonical

  datatype Marker =
    | InitMarker(openHeight: nat, closeHeight: nat, specHash: Bytes)
    | CreateMarker
    | MarkMarker(sequence: nat, kind: nat, commitment: Bytes)
    | RotateMarker(sequence: nat)
    | CloseMarker(sequence: nat, commitment: Bytes)

  datatype Binding = Binding(networkCode: nat, initTxid: Txid, specHash: Bytes, namespace: Bytes)

  /** The heights of a validated INIT: where it confirmed, and its founding window. */
  datatype Window = Window(height: nat, openHeight: nat, closeHeight: nat)

  datatype CarrierEvidence = CarrierEvidence(
    objectKey: Key, outpoint: Option<Outpoint>, stateSequence: nat, key0: Bytes, key1: Bytes,
    confirmedHeight: nat)

  /** What the validator's evidence is built from: the transaction, as the node reports it, and its block height. */
  datatype Evidence = Evidence(tx: Tx, height: nat)

  datatype Context = Context(binding: Binding, window: Window, carriers: seq<CarrierEvidence>)

  datatype ValidationEvent = ValidationEvent(
    validity: ValidityClass, operation: Option<Operation>, objectKey: Option<Key>, reason: nat)

  datatype Verdict = Verdict(relevant: bool, events: seq<ValidationEvent>, marker: Option<Marker>)

  datatype Inspection = Inspection(candidate: bool, payload: Bytes)

  // The leaves of both roots have fixed widths: zeros stand for what is missing.

  datatype ObjectSnapshot = ObjectSnapshot(
    objectKey: Key, founding: bool, status: Status, createHeight: nat, stateSequence: nat,
    currentOutpoint: Outpoint, key0: Bytes, key1: Bytes, terminalTxid: Txid, chapterCount: nat)

  datatype CanonicalEvent = CanonicalEvent(
    namespace: Bytes, blockHash: Hash, height: nat, txIndex: nat, eventIndex: nat, subIndex: nat,
    eventType: EventType, validity: ValidityClass, reason: nat, txid: Txid, wtxid: Txid,
    objectKey: Key, stateSequence: nat, predecessor: Outpoint, successor: Outpoint,
    key0: Bytes, key1: Bytes, commitment: Bytes)

  datatype BlockRootInput = BlockRootInput(
    namespace: Bytes, previousRoot: Hash, blockHash: Hash, height: nat, eventRoot: Hash,
    objectStateRoot: Hash, foundingCreated: nat, allObjects: nat, activeObjects: nat)

  /**
   * `validate` is None where the validator throws. `isScriptHash` tells what the evidence says of the output
   * an outpoint names, pay-to-witness-script-hash or not: a txid commits to its outputs. `keysOk` holds of two
   * valid compressed keys in ascending order. `objectStateRoot` takes a map, since the root orders its leaves by key.
   */
  datatype Protocol = Protocol(
    binding: Binding,
    validate: (Evidence, Context) -> Option<Verdict>,
    isScriptHash: Outpoint -> bool,
    keysOk: (Bytes, Bytes) -> bool,
    inspect: Bytes -> Inspection,
    parse: (Bytes, nat) -> Option<Marker>,
    objectKeyOf: (Bytes, Txid) -> Key,
    eventRoot: (Bytes, seq<CanonicalEvent>) -> Hash,
    objectStateRoot: (Bytes, map<Key, ObjectSnapshot>) -> Hash,
    chainedRoot: BlockRootInput -> Hash,
    initialRoot: Bytes -> Hash)

  // ----- marker candidates --------------------------------------------------------------------

  datatype Candidate = Candidate(vout: nat, payload: Bytes, complete: bool)

  function ByteAt(bytes: Bytes, i: nat): Option<int> {
    if i < |bytes| then Some(bytes[i] as int) else None
  }

  function ByteOr(bytes: Bytes, i: nat, default: int): int {
    if i < |bytes| then bytes[i] as int else default
  }

  /** The length the first push of a marker script declares, or -1. */
  function DeclaredLength(script: Bytes): int {
    var push := ByteOr(script, 1, 0);
    if 1 <= push <= 75 then push
    else if push == 0x4c then ByteOr(script, 2, -1)
    else if push == 0x4d then ByteOr(script, 2, 0) + 0x100 * ByteOr(script, 3, 0)
    else if push == 0x4e && |script| >= 6 then
      ByteOr(script, 2, 0) + 0x100 * ByteOr(script, 3, 0) +
      0x1_0000 * ByteOr(script, 4, 0) + 0x100_0000 * ByteOr(script, 5, 0)
    else -1
  }

  /** The output as a marker candidate, unless it is a foreign INIT candidate. */
  function CandidateOf(p: Protocol, tx: Tx, initTxid: Txid, output: Output): Option<Candidate> {
    if ByteAt(output.script, 0) != Some(0x6a) then None
    else
      var inspection := p.inspect(output.script);
      if !inspection.candidate then None
      else if ByteAt(inspection.payload, 6) == Some(0) && tx.txid != initTxid then None
      else Some(Candidate(output.n, inspection.payload, DeclaredLength(output.script) == |inspection.payload|))
  }

  /** The candidates among the first `n` outputs. */
  function Candidates(p: Protocol, tx: Tx, initTxid: Txid, n: nat): seq<Candidate>
    requires n <= |tx.outputs|
  {
    if n == 0 then []
    else
      Candidates(p, tx, initTxid, n - 1) +
      match CandidateOf(p, tx, initTxid, tx.outputs[n - 1])
      case None => []
      case Some(candidate) => [candidate]
  }

  function RemainingCandidates(p: Protocol, tx: Tx, initTxid: Txid): seq<Candidate> {
    Candidates(p, tx, initTxid, |tx.outputs|)
  }

  // ----- the validator ------------------------------------------------------------------------

  ghost predicate DistinctCarriers(carriers: seq<CarrierEvidence>) {
    forall i, j :: 0 <= i < j < |carriers| ==> carriers[i].objectKey != carriers[j].objectKey
  }

  predicate IsExit(event: ValidationEvent) {
    event.validity.TerminalNoncanonical? && event.objectKey.Some?
  }

  /** One valid operation that spends the carrier; its marker repeats the operation and counts one up. */
  predicate OperatesOn(carrier: CarrierEvidence, event: ValidationEvent, marker: Option<Marker>) {
    && event.validity.ValidOperation?
    && event.objectKey == Some(carrier.objectKey)
    && match event.operation
       case Some(OpMark) =>
         marker.Some? && marker.value.MarkMarker? && marker.value.sequence == carrier.stateSequence + 1
       case Some(OpRotate) =>
         marker.Some? && marker.value.RotateMarker? && marker.value.sequence == carrier.stateSequence + 1
       case Some(OpClose) =>
         marker.Some? && marker.value.CloseMarker? && marker.value.sequence == carrier.stateSequence + 1
       case Some(OpRefund) => true
       case _ => false
  }

  ghost predicate NamesOne(carriers: seq<CarrierEvidence>, event: ValidationEvent) {
    exists j :: 0 <= j < |carriers| && event.objectKey == Some(carriers[j].objectKey)
  }

  /** Every carrier exits, each by one event. */
  ghost predicate AllExit(carriers: seq<CarrierEvidence>, events: seq<ValidationEvent>) {
    && |events| == |carriers|
    && (forall i :: 0 <= i < |events| ==> IsExit(events[i]))
    && (forall i, j :: 0 <= i < j < |events| ==> events[i].objectKey != events[j].objectKey)
    && (forall i :: 0 <= i < |events| ==> NamesOne(carriers, events[i]))
  }

  /** An event of a transaction that spends no carrier. */
  predicate CarrierlessEvent(e: Evidence, c: Context, event: ValidationEvent) {
    match event.validity
    case InvalidNoState => true
    case TerminalNoncanonical => false
    case ValidOperation =>
      if e.tx.txid == c.binding.initTxid then
        event.operation == Some(OpInit) && c.window.openHeight >= c.window.height + INIT_LEAD
      else
        event.operation == Some(OpCreate) && e.height >= c.window.openHeight
  }

  /** A valid INIT has the marker of the configured specification, with the heights of its own window. */
  predicate MarksInit(c: Context, marker: Option<Marker>) {
    && marker == Some(InitMarker(c.window.openHeight, c.window.closeHeight, c.binding.specHash))
    && c.window.closeHeight == c.window.openHeight + FOUNDING_WINDOW
  }

  /** A valid operation that makes a carrier makes it in output 1, for keys in order. */
  predicate MakesCarrier(p: Protocol, tx: Tx, operation: Option<Operation>) {
    match operation
    case Some(OpCreate) => p.isScriptHash(Outpoint(tx.txid, 1)) && p.keysOk(Revealed(tx, 0), Revealed(tx, 1))
    case Some(OpMark) => p.isScriptHash(Outpoint(tx.txid, 1))
    case Some(OpRotate) => p.isScriptHash(Outpoint(tx.txid, 1)) && p.keysOk(Revealed(tx, 1), Revealed(tx, 2))
    case _ => true
  }

  /** What the validator promises about one transaction. */
  ghost predicate LawfulVerdict(p: Protocol, e: Evidence, c: Context, v: Verdict) {
    if c.carriers == [] then
      |v.events| <= 1 && forall i :: 0 <= i < |v.events| ==>
        CarrierlessEvent(e, c, v.events[i])
        && (v.events[i].validity.ValidOperation? ==> MakesCarrier(p, e.tx, v.events[i].operation))
        && (v.events[i].validity.ValidOperation? && v.events[i].operation == Some(OpInit) ==> MarksInit(c, v.marker))
    else if e.tx.txid == c.binding.initTxid then
      true
    else
      && v.relevant
      && (|c.carriers| == 1 ==>
            |v.events| == 1
            && ((OperatesOn(c.carriers[0], v.events[0], v.marker) && MakesCarrier(p, e.tx, v.events[0].operation))
                || AllExit(c.carriers, v.events)))
      && (|c.carriers| > 1 ==> AllExit(c.carriers, v.events))
  }

  /**
   * A transaction is answered with events exactly when it is the configured INIT, has a marker candidate left,
   * or spends a carrier.
   */
  ghost predicate IsAnswered(p: Protocol, e: Evidence, c: Context, v: Verdict) {
    v.relevant && v.events != [] <==>
    e.tx.txid == c.binding.initTxid || RemainingCandidates(p, e.tx, c.binding.initTxid) != [] || c.carriers != []
  }

  /** The transaction spends the carrier, which is one: a witness script hash of two keys in order. */
  predicate IsPresented(p: Protocol, tx: Tx, carrier: CarrierEvidence) {
    && carrier.outpoint.Some? && Spends(tx.inputs, carrier.outpoint.value)
    && p.isScriptHash(carrier.outpoint.value) && p.keysOk(carrier.key0, carrier.key1)
  }

  /** The carriers of distinct objects, each spent by the transaction, under the configured binding. */
  ghost predicate Presented(p: Protocol, e: Evidence, c: Context) {
    && c.binding == p.binding && DistinctCarriers(c.carriers)
    && forall i :: 0 <= i < |c.carriers| ==> IsPresented(p, e.tx, c.carriers[i])
  }

  /** The verdict where there is one. */
  function VerdictOf(p: Protocol, e: Evidence, c: Context): Verdict {
    match p.validate(e, c) case Some(v) => v case None => Verdict(false, [], None)
  }

  /**
   * The validator answers, and keeps its promise, for every transaction presented with carriers it spends;
   * object keys never collide.
   */
  ghost predicate Lawful(p: Protocol) {
    && (forall e: Evidence, c: Context :: Presented(p, e, c) ==>
          && p.validate(e, c).Some?
          && LawfulVerdict(p, e, c, VerdictOf(p, e, c)) && IsAnswered(p, e, c, VerdictOf(p, e, c)))
    && (forall n: Bytes, t: Txid, u: Txid :: p.objectKeyOf(n, t) == p.objectKeyOf(n, u) ==> t == u)
  }
}
