/**
 * The closed form of `writeBlock`: what each table holds afterwards, when no key refuses a row. Each
 * table depends on its own rows only.
 */
module Written {
  import opened Prelude
  import opened Bitcoin
  import opened Reducer
  import opened Schema

  function PutTransactions(m: TransactionTable, height: nat, rows: seq<TxRow>, n: nat): TransactionTable
    requires n <= |rows|
  {
    if n == 0 then m
    else PutTransactions(m, height, rows, n - 1)[rows[n - 1].txid := TransactionRowOf(height, rows[n - 1])]
  }

  function PutEvents(m: EventTable, height: nat, rows: seq<EventRecord>, n: nat): EventTable
    requires n <= |rows|
  {
    if n == 0 then m
    else PutEvents(m, height, rows, n - 1)[PositionOf(height, rows[n - 1]) := rows[n - 1]]
  }

  function PutStates(m: StateTable, height: nat, rows: seq<StateRow>, n: nat): StateTable
    requires n <= |rows|
  {
    if n == 0 then m
    else PutStates(m, height, rows, n - 1)[rows[n - 1].outpoint := StateOf(height, rows[n - 1])]
  }

  function SpendStates(m: StateTable, height: nat, spends: seq<Spend>, n: nat): StateTable
    requires n <= |spends|
  {
    if n == 0 then m else SpendState(SpendStates(m, height, spends, n - 1), height, spends[n - 1])
  }

  function PutChapters(m: ChapterTable, height: nat, rows: seq<ChapterRow>, n: nat): ChapterTable
    requires n <= |rows|
  {
    if n == 0 then m
    else
      PutChapters(m, height, rows, n - 1)[ChapterKey(rows[n - 1].objectKey, rows[n - 1].sequence) :=
                                          ChapterEntry(rows[n - 1].txid, height, rows[n - 1].chapter)]
  }

  function UndoRows(height: nat, w: Work, n: nat): seq<UndoRow>
    requires n <= |w.touched|
  {
    if n == 0 then []
    else
      UndoRows(height, w, n - 1) +
      [UndoRow(height, w.touched[n - 1], if w.touched[n - 1] in w.undo then w.undo[w.touched[n - 1]] else None)]
  }

  /** tandem_states once the block's rows and spends are in. */
  function StatesAfter(m: StateTable, height: nat, w: Work): StateTable {
    SpendStates(PutStates(m, height, w.newStates, |w.newStates|), height, w.spentOutpoints, |w.spentOutpoints|)
  }

  function ChaptersAfter(m: ChapterTable, height: nat, w: Work): ChapterTable {
    PutChapters(m, height, w.chapters, |w.chapters|)
  }

  // ----- extending the row lists by one -------------------------------------------------------

  lemma {:induction false} PutStatesPrefix(m: StateTable, height: nat, rows: seq<StateRow>, more: seq<StateRow>, n: nat)
    requires n <= |rows|
    ensures PutStates(m, height, rows + more, n) == PutStates(m, height, rows, n)
  {
    if n > 0 {
      PutStatesPrefix(m, height, rows, more, n - 1);
    }
  }

  lemma {:induction false} SpendStatesPrefix(m: StateTable, height: nat, rows: seq<Spend>, more: seq<Spend>, n: nat)
    requires n <= |rows|
    ensures SpendStates(m, height, rows + more, n) == SpendStates(m, height, rows, n)
  {
    if n > 0 {
      SpendStatesPrefix(m, height, rows, more, n - 1);
    }
  }

  lemma {:induction false} PutChaptersPrefix(m: ChapterTable, height: nat, rows: seq<ChapterRow>,
                                             more: seq<ChapterRow>, n: nat)
    requires n <= |rows|
    ensures PutChapters(m, height, rows + more, n) == PutChapters(m, height, rows, n)
  {
    if n > 0 {
      PutChaptersPrefix(m, height, rows, more, n - 1);
    }
  }

  /** Spending rows neither adds a row nor changes which object and sequence it belongs to. */
  lemma {:induction false} SpendKeepsRows(m: StateTable, height: nat, spends: seq<Spend>, n: nat)
    requires n <= |spends|
    ensures SpendStates(m, height, spends, n).Keys == m.Keys
    ensures forall o :: o in m ==>
              SpendStates(m, height, spends, n)[o] == m[o].(spent := SpendStates(m, height, spends, n)[o].spent)
  {
    if n > 0 {
      SpendKeepsRows(m, height, spends, n - 1);
    }
  }

  /** A row that no spend names can be added before or after the spends. */
  lemma {:induction false} SpendCommutesWithPut(m: StateTable, height: nat, spends: seq<Spend>, n: nat,
                                                o: Outpoint, row: CarrierState)
    requires n <= |spends|
    requires forall i :: 0 <= i < n ==> spends[i].outpoint != o
    ensures SpendStates(m[o := row], height, spends, n) == SpendStates(m, height, spends, n)[o := row]
  {
    if n > 0 {
      SpendCommutesWithPut(m, height, spends, n - 1, o, row);
      var before := SpendStates(m, height, spends, n - 1);
      assert SpendState(before[o := row], height, spends[n - 1]) == SpendState(before, height, spends[n - 1])[o := row];
    }
  }

  lemma StatesAfterRow(m: StateTable, height: nat, w: Work, row: StateRow)
    requires forall i :: 0 <= i < |w.spentOutpoints| ==> w.spentOutpoints[i].outpoint != row.outpoint
    ensures StatesAfter(m, height, w.(newStates := w.newStates + [row]))
            == StatesAfter(m, height, w)[row.outpoint := StateOf(height, row)]
  {
    PutStatesPrefix(m, height, w.newStates, [row], |w.newStates|);
    SpendCommutesWithPut(PutStates(m, height, w.newStates, |w.newStates|), height, w.spentOutpoints,
                         |w.spentOutpoints|, row.outpoint, StateOf(height, row));
  }

  lemma StatesAfterSpend(m: StateTable, height: nat, w: Work, s: Spend)
    ensures StatesAfter(m, height, w.(spentOutpoints := w.spentOutpoints + [s]))
            == SpendState(StatesAfter(m, height, w), height, s)
  {
    SpendStatesPrefix(PutStates(m, height, w.newStates, |w.newStates|), height, w.spentOutpoints, [s],
                      |w.spentOutpoints|);
  }

  lemma ChaptersAfterRow(m: ChapterTable, height: nat, w: Work, row: ChapterRow)
    ensures ChaptersAfter(m, height, w.(chapters := w.chapters + [row]))
            == ChaptersAfter(m, height, w)[ChapterKey(row.objectKey, row.sequence) :=
                                           ChapterEntry(row.txid, height, row.chapter)]
  {
    PutChaptersPrefix(m, height, w.chapters, [row], |w.chapters|);
  }

  // ----- the whole block ----------------------------------------------------------------------

  /** What `writeBlock` leaves behind. */
  function AfterBlock(t: Tables, r: ReducedBlock): Tables {
    t.(blocks := t.blocks[r.height := BlockRowOf(r)],
       init := if r.initConfirmed then Some(r.activation) else t.init,
       transactions := PutTransactions(t.transactions, r.height, r.transactions, |r.transactions|),
       events := PutEvents(t.events, r.height, r.events, |r.events|),
       objects := ObjectRows(r.work.objects),
       undo := t.undo + UndoRows(r.height, r.work, |r.work.touched|),
       states := StatesAfter(t.states, r.height, r.work),
       carriers := CarriersOf(StatesAfter(t.states, r.height, r.work)),
       chapters := ChaptersAfter(t.chapters, r.height, r.work),
       checkpoints := t.checkpoints[r.height := CheckpointOf(r)])
  }
}
