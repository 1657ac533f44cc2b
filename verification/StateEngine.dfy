/** The reference state machine for one object population (src/protocol/state-engine.ts). */
module StateEngine {
  import opened Prelude
  import opened Bitcoin

  type Key = nat

  datatype Status = Active | Closed | Refunded | ExitedNoncanonical

  datatype IndexedObjectState = IndexedObjectState(
    objectKey: Key, status: Status, sequence: nat, currentOutpoint: Option<Outpoint>,
    key0: Bytes, key1: Bytes, chapterCount: nat, terminalTxid: Option<Txid>)

  type States = map<Key, IndexedObjectState>

  datatype StateTransition =
    | Create(objectKey: Key, successor: Outpoint, key0: Bytes, key1: Bytes)
    | Mark(objectKey: Key, sequence: nat, predecessor: Outpoint, successor: Outpoint, key0: Bytes, key1: Bytes)
    | Rotate(objectKey: Key, sequence: nat, predecessor: Outpoint, successor: Outpoint, key0: Bytes, key1: Bytes)
    | Close(objectKey: Key, sequence: nat, predecessor: Outpoint, terminalTxid: Txid)
    | Refund(objectKey: Key, predecessor: Outpoint, terminalTxid: Txid)
    | Exit(objectKey: Key, predecessor: Outpoint, terminalTxid: Txid)

  function RequireActive(states: States, objectKey: Key, predecessor: Outpoint): Result<IndexedObjectState> {
    if objectKey !in states || !states[objectKey].status.Active? then Err(NotActive)
    else if states[objectKey].currentOutpoint != Some(predecessor) then Err(WrongPredecessor)
    else Ok(states[objectKey])
  }

  function ApplyStateTransition(states: States, transition: StateTransition): Result<States> {
    if transition.Create? then
      if transition.objectKey in states then Err(ObjectExists)
      else
        Ok(states[transition.objectKey := IndexedObjectState(
             transition.objectKey, Active, 0, Some(transition.successor),
             transition.key0, transition.key1, 0, None)])
    else
      var current :- RequireActive(states, transition.objectKey, transition.predecessor);
      match transition
      case Mark(key, sequence, _, successor, key0, key1) =>
        if sequence != current.sequence + 1 then Err(BadSequence)
        else Ok(states[key := current.(sequence := sequence, currentOutpoint := Some(successor),
                                       key0 := key0, key1 := key1, chapterCount := current.chapterCount + 1)])
      case Rotate(key, sequence, _, successor, key0, key1) =>
        if sequence != current.sequence + 1 then Err(BadSequence)
        else Ok(states[key := current.(sequence := sequence, currentOutpoint := Some(successor),
                                       key0 := key0, key1 := key1)])
      case Close(key, sequence, _, txid) =>
        if sequence != current.sequence + 1 then Err(BadSequence)
        else Ok(states[key := current.(status := Closed, sequence := sequence,
                                       currentOutpoint := None, terminalTxid := Some(txid))])
      case Refund(key, _, txid) =>
        Ok(states[key := current.(status := Refunded, currentOutpoint := None, terminalTxid := Some(txid))])
      case Exit(key, _, txid) =>
        Ok(states[key := current.(status := ExitedNoncanonical, currentOutpoint := None,
                                  terminalTxid := Some(txid))])
  }

  /** Folds the transitions from left to right; the first refusal stops the fold. */
  function Run(states: States, transitions: seq<StateTransition>): Result<States> {
    if transitions == [] then Ok(states)
    else
      var before :- Run(states, transitions[..|transitions| - 1]);
      ApplyStateTransition(before, transitions[|transitions| - 1])
  }
}
