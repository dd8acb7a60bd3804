/** The database worker: the tables as fields, the SQL transactions as methods that change them in place. */
module SqliteWorker {
  import opened Options
  import opened Chain
  import opened BlockTables
  import opened TxTables
  import ForkWalk
  import TxConservation

  class StandaloneSqliteDatabaseWorker {
    var newBlocks: map<nat, Block>
    var stableBlocks: map<nat, Block>
    var newBlockTransactions: map<BlockTx, nat>
    var stableBlockTransactions: set<BlockTx>
    var newTransactions: map<TxId, NewTx>
    var stableTransactions: set<TxId>
    var missingTransactions: map<(Hash, TxId), nat>

    ghost function Model(): Db
      reads this
    {
      Db(Tables(newBlocks, stableBlocks),
         Txs(newBlockTransactions, stableBlockTransactions, newTransactions, stableTransactions, missingTransactions))
    }

    constructor ()
      ensures Model() == TxConservation.EMPTY_DB
    {
      newBlocks, stableBlocks := map[], map[];
      newBlockTransactions, stableBlockTransactions := map[], {};
      newTransactions, stableTransactions := map[], {};
      missingTransactions := map[];
    }

    method GetMaxHeight() returns (height: int)
      ensures height == ForkWalk.MaxHeight(View(Model().blocks))
    {
      height := -1;
      var heights := newBlocks.Keys + stableBlocks.Keys;
      ghost var view := View(Model().blocks);
      assert heights == view.Keys;
      while heights != {}
        invariant heights <= view.Keys
        invariant forall h :: h in view && h !in heights ==> h <= height
        invariant height == -1 || height in view
        invariant heights == view.Keys ==> height == -1
        decreases |heights|
      {
        var h :| h in heights;
        heights := heights - {h};
        if h > height {
          height := h;
        }
      }
    }

    method GetBlockHashByHeight(height: nat) returns (hash: Option<Hash>)
      ensures var ix := View(Model().blocks); hash == if height in ix then Some(ix[height].hash) else None
    {
      if height in newBlocks {
        return Some(newBlocks[height].hash);
      } else if height in stableBlocks {
        return Some(stableBlocks[height].hash);
      }
      return None;
    }

    method ResetToHeight(height: int)
      modifies this
      ensures Model() == TxTables.ResetToHeight(old(Model()), height)
    {
      newTransactions := map tx | tx in newTransactions :: ClearHeight(newTransactions[tx], height);
      newBlocks := map h | h in newBlocks && h <= height :: newBlocks[h];
      newBlockTransactions := map k | k in newBlockTransactions && newBlockTransactions[k] <= height ::
        newBlockTransactions[k];
      missingTransactions := map k | k in missingTransactions && missingTransactions[k] <= height ::
        missingTransactions[k];
    }

    method UpsertNewTransaction(tx: TxId, height: Option<nat>, now: int)
      modifies this`newTransactions
      ensures newTransactions == Upsert(old(newTransactions), tx, height, now)
    {
      if tx in newTransactions {
        if height.Some? {
          newTransactions := newTransactions[tx := newTransactions[tx].(height := height)];
        } else {
          assert newTransactions == newTransactions[tx := newTransactions[tx]];
        }
      } else {
        newTransactions := newTransactions[tx := NewTx(height, now)];
      }
    }

    /** `deleteNewMissingTransaction`. */
    method DeleteNewMissingTransaction(tx: TxId)
      modifies this`missingTransactions
      ensures missingTransactions == map k | k in old(missingTransactions)
                && !(k.1 == tx && AboveStable(Tables(newBlocks, stableBlocks), old(missingTransactions)[k])) ::
                  old(missingTransactions)[k]
    {
      var aboveStable := set k | k in missingTransactions
        && stableBlocks != map[] && forall h :: h in stableBlocks ==> missingTransactions[k] > h + 1;
      missingTransactions := map k | k in missingTransactions && !(k.1 == tx && k in aboveStable) ::
        missingTransactions[k];
    }

    /** `selectMissingTransactionHeight`: the rows come in the order of the index on height. */
    method SelectMissingTransactionHeight(tx: TxId) returns (height: Option<nat>)
      ensures MissingHeight(Model().txs, tx, height)
    {
      height := None;
      var rows := missingTransactions.Keys;
      while rows != {}
        invariant rows <= missingTransactions.Keys
        invariant forall k :: k in missingTransactions && k !in rows && k.1 == tx ==>
          height.Some? && height.value <= missingTransactions[k]
        invariant height.Some? ==>
          exists k :: k in missingTransactions && k.1 == tx && missingTransactions[k] == height.value
        decreases |rows|
      {
        var k :| k in rows;
        rows := rows - {k};
        if k.1 == tx && (height.None? || missingTransactions[k] < height.value) {
          height := Some(missingTransactions[k]);
        }
      }
    }

    /** `insertAsyncNewBlockTransaction`. */
    method InsertAsyncNewBlockTransactions(tx: TxId, height: nat)
      modifies this`newBlockTransactions
      ensures newBlockTransactions == AddRows(old(newBlockTransactions), StableRows(Model().txs, tx), height)
    {
      ghost var before, all := newBlockTransactions, StableRows(Model().txs, tx);
      var rows := set k | k in stableBlockTransactions && k.tx == tx;
      while rows != {}
        invariant rows <= all
        invariant forall k :: k in newBlockTransactions <==> k in before || k in all - rows
        invariant forall k :: k in newBlockTransactions ==>
          newBlockTransactions[k] == if k in before then before[k] else height
        decreases |rows|
      {
        var k :| k in rows;
        rows := rows - {k};
        newBlockTransactions := InsertOrIgnore(newBlockTransactions, k, height);
      }
    }

    method SaveTx(tx: TxId, now: int) returns (height: Option<nat>)
      modifies this
      ensures MissingHeight(old(Model().txs), tx, height)
      ensures Model() == TxTables.SaveTx(old(Model()), tx, height, now)
    {
      height := SelectMissingTransactionHeight(tx);
      UpsertNewTransaction(tx, height, now);
      if height.Some? {
        InsertAsyncNewBlockTransactions(tx, height.value);
      }
      DeleteNewMissingTransaction(tx);
    }

    method InsertNewBlockRow(b: Block)
      modifies this`newBlocks
      ensures newBlocks == InsertNewBlock(old(Model().blocks), b).newBlocks
    {
      if forall h :: h in newBlocks ==> newBlocks[h].hash != b.hash {
        newBlocks := newBlocks[b.height := b];
      }
    }

    method InsertBlockTransactions(b: Block)
      modifies this`newBlockTransactions
      ensures newBlockTransactions == InsertBlockTxs(old(newBlockTransactions), b, |b.txs|)
    {
      for i := 0 to |b.txs|
        invariant newBlockTransactions == InsertBlockTxs(old(newBlockTransactions), b, i)
      {
        newBlockTransactions := InsertOrIgnore(newBlockTransactions, BlockTx(b.hash, b.txs[i], i), b.height);
      }
    }

    method InsertNewTransactions(b: Block, txs: seq<TxId>, now: int)
      modifies this`newTransactions
      ensures newTransactions == UpsertAll(old(newTransactions), txs, b.height, now)
    {
      for i := 0 to |txs|
        invariant newTransactions == UpsertAll(old(newTransactions), txs[..i], b.height, now)
      {
        assert txs[..i + 1][..i] == txs[..i];
        UpsertNewTransaction(txs[i], Some(b.height), now);
      }
      assert txs[..|txs|] == txs;
    }

    method InsertMissingTransactions(b: Block, missing: seq<TxId>)
      modifies this`missingTransactions
      ensures missingTransactions == InsertMissing(old(missingTransactions), b, missing)
    {
      for i := 0 to |missing|
        invariant missingTransactions == InsertMissing(old(missingTransactions), b, missing[..i])
      {
        assert missing[..i + 1][..i] == missing[..i];
        missingTransactions := InsertOrIgnore(missingTransactions, (b.hash, missing[i]), b.height);
      }
      assert missing[..|missing|] == missing;
    }

    method InsertBlockAndTxs(b: Block, txs: seq<TxId>, missing: seq<TxId>, now: int)
      modifies this
      ensures Model() == InsertBlock(old(Model()), b, txs, missing, now) && stableBlocks == old(stableBlocks)
    {
      InsertNewBlockRow(b);
      InsertBlockTransactions(b);
      InsertNewTransactions(b, txs, now);
      InsertMissingTransactions(b, missing);
    }

    method MaxStableBlockTimestamp() returns (m: nat)
      ensures m == MaxTimestamp(stableBlocks)
    {
      m := 0;
      var heights := stableBlocks.Keys;
      while heights != {}
        invariant heights <= stableBlocks.Keys
        invariant forall h :: h in stableBlocks && h !in heights ==> stableBlocks[h].timestamp <= m
        invariant m == 0 || exists h :: h in stableBlocks && stableBlocks[h].timestamp == m
        decreases |heights|
      {
        var h :| h in heights;
        heights := heights - {h};
        if stableBlocks[h].timestamp > m {
          m := stableBlocks[h].timestamp;
        }
      }
      assert IsMaxTimestamp(stableBlocks, m) && IsMaxTimestamp(stableBlocks, MaxTimestamp(stableBlocks));
    }

    /** `saveCoreStableDataFn`, then `deleteCoreStaleNewDataFn`. */
    method FlushStableData(end: int, indexedBefore: int)
      modifies this
      ensures Model() == FlushDb(old(Model()), end, indexedBefore)
    {
      stableBlocks := CopyStable(Tables(newBlocks, stableBlocks), end).stableBlocks;
      stableBlockTransactions := stableBlockTransactions + set k | k in newBlockTransactions
        && newBlockTransactions[k] < end;
      stableTransactions := stableTransactions
        + set k | k in newBlockTransactions && newBlockTransactions[k] < end && k.tx in newTransactions :: k.tx;

      missingTransactions := map k | k in missingTransactions
        && !(missingTransactions[k] < end && k.1 in stableTransactions) :: missingTransactions[k];
      newTransactions := map tx | tx in newTransactions && !Stale(newTransactions[tx], end, indexedBefore) ::
        newTransactions[tx];
      newBlockTransactions := map k | k in newBlockTransactions && newBlockTransactions[k] >= end ::
        newBlockTransactions[k];
      newBlocks := map h | h in newBlocks && h >= end :: newBlocks[h];
    }

    method FlushOnInterval(height: nat, indexedBefore: int)
      modifies this
      ensures Model() == FlushDbAfter(old(Model()), height, indexedBefore)
    {
      if height % STABLE_FLUSH_INTERVAL == 0 {
        FlushStableData(height - MAX_FORK_DEPTH, indexedBefore);
      }
    }

    /** Inserts, and on every fifth height flushes. `now` is the clock. */
    method SaveBlockAndTxs(b: Block, txs: seq<TxId>, missing: seq<TxId>, now: int)
      modifies this
      ensures Model() == TxTables.SaveBlockAndTxs(old(Model()), b, txs, missing, now, CutOff(old(Model())))
    {
      InsertBlockAndTxs(b, txs, missing, now);
      var timestamp := MaxStableBlockTimestamp();
      FlushOnInterval(b.height, timestamp - NEW_TX_CLEANUP_WAIT_SECS);
    }
  }
}
