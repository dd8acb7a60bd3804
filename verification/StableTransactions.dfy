/**
 What the stable tier holds: in every run each stable transaction was delivered, and is listed by a stable block; the
 flush at an end height moves exactly what lies below it. For the importer, the block is the source's own for good.
 */
module StableTransactions {
  import opened Options
  import opened Chain
  import opened ForkWalk
  import opened BlockTables
  import opened TxTables
  import opened TxConservation
  import BlockImporter
  import Finality
  import ImporterRuns
  import ImporterOps

  // ---------------------------------------------------------------- what one flush does

  /** The rows of `k.tx` that lie below `end`. */
  predicate RowBelow(t: Txs, k: BlockTx, end: int) {
    k in t.newBlockTxs && t.newBlockTxs[k] < end
  }

  /**
   A flush to `end` makes stable exactly the stored transactions with a block row below `end`, and moves exactly those
   rows; no transaction row with a height below `end` is left.
   */
  lemma FlushMovesExactly(db: Db, end: int, indexedBefore: int)
    ensures var t, t' := db.txs, FlushDb(db, end, indexedBefore).txs;
      && (forall tx :: tx in t'.stableTxs <==>
            tx in t.stableTxs || (tx in t.newTxs && exists k :: RowBelow(t, k, end) && k.tx == tx))
      && (forall k :: k in t'.stableBlockTxs <==> k in t.stableBlockTxs || RowBelow(t, k, end))
      && (forall k :: k in t'.newBlockTxs <==> k in t.newBlockTxs && !RowBelow(t, k, end))
      && (forall k :: k in t'.newBlockTxs ==> t'.newBlockTxs[k] == t.newBlockTxs[k])
    ensures var t, t' := db.txs, FlushDb(db, end, indexedBefore).txs;
      && (forall tx :: tx in t'.newTxs && t'.newTxs[tx].height.Some? ==> t'.newTxs[tx].height.value >= end)
      && (forall tx :: tx in t'.newTxs ==> tx in t.newTxs && t'.newTxs[tx] == t.newTxs[tx])
      && (forall tx :: tx in t.newTxs && tx !in t'.newTxs ==>
            if t.newTxs[tx].height.Some? then t.newTxs[tx].height.value < end
              else t.newTxs[tx].indexedAt < indexedBefore)
  {
    var t, t' := db.txs, FlushDb(db, end, indexedBefore).txs;
    forall tx | tx in t'.stableTxs && tx !in t.stableTxs
      ensures tx in t.newTxs && exists k :: RowBelow(t, k, end) && k.tx == tx
    {
      var k :| k in t.newBlockTxs && t.newBlockTxs[k] < end && k.tx in t.newTxs && k.tx == tx;
      assert RowBelow(t, k, end);
    }
  }

  /** It unlists a missing transaction exactly when its block lies below `end` and it is stable by then. */
  lemma FlushUnlistsExactly(db: Db, end: int, indexedBefore: int)
    ensures var t, t' := db.txs, FlushDb(db, end, indexedBefore).txs;
      && (forall m :: m in t'.missing <==> m in t.missing && (t.missing[m] >= end || m.1 !in t'.stableTxs))
      && (forall m :: m in t'.missing ==> t'.missing[m] == t.missing[m])
  {
  }

  /**
   A transaction that has lost its height survives the flush of a save exactly when no stable block was mined more than
   two hours after it was indexed.
   */
  lemma UndatedSurvivesTwoHours(db: Db, end: int, tx: TxId)
    requires tx in db.txs.newTxs && db.txs.newTxs[tx].height.None? && db.txs.newTxs[tx].indexedAt >= 0
    ensures tx in FlushDb(db, end, CutOff(db)).txs.newTxs <==>
      forall h :: h in db.blocks.stableBlocks ==>
        db.blocks.stableBlocks[h].timestamp <= db.txs.newTxs[tx].indexedAt + 2 * 60 * 60
  {
  }

  // ---------------------------------------------------------------- every stable transaction has a stable row

  /**
   A new row belongs to an indexed block that lists it, and stands at that block's height unless the block is stable.
   */
  ghost predicate PlacedRow(db: Db, k: BlockTx, h: nat) {
    k in db.txs.newBlockTxs && IsBlockTx(View(db.blocks), k, h)
      && (h in db.blocks.stableBlocks || db.txs.newBlockTxs[k] == h)
  }

  ghost predicate HasStableRow(t: Txs, tx: TxId) {
    exists k :: k in t.stableBlockTxs && k.tx == tx
  }

  ghost predicate Placed(db: Db) {
    && Sound(db.blocks) && StableRowsOwned(db)
    && (forall k :: k in db.txs.newBlockTxs ==> exists h :: PlacedRow(db, k, h))
    && (forall tx :: tx in db.txs.stableTxs ==> HasStableRow(db.txs, tx))
  }

  lemma RowStays(db: Db, db': Db, k: BlockTx, h: nat)
    requires PlacedRow(db, k, h) && k in db'.txs.newBlockTxs && db'.txs.newBlockTxs[k] == db.txs.newBlockTxs[k]
    requires h in View(db'.blocks) && View(db'.blocks)[h] == View(db.blocks)[h]
    requires db'.blocks.stableBlocks == db.blocks.stableBlocks
    ensures PlacedRow(db', k, h)
  {
  }

  /** The rows of the block itself. */
  lemma OwnRowIsPlaced(db: Db, b: Block, k: BlockTx)
    requires b.height in View(db.blocks) && View(db.blocks)[b.height] == b
    requires k in db.txs.newBlockTxs && k.block == b.hash && k.index < |b.txs| && k.tx == b.txs[k.index]
    requires db.txs.newBlockTxs[k] == b.height
    ensures PlacedRow(db, k, b.height)
  {
  }

  lemma InsertPlacesRow(
      db: Db, b: Block, txs: seq<TxId>, missing: seq<TxId>, now: int, db': Db, k: BlockTx) returns (h: nat)
    requires (k in db.txs.newBlockTxs ==> exists h :: PlacedRow(db, k, h)) && Sound(db.blocks) && FreshBlock(db, b)
    requires db' == InsertBlock(db, b, txs, missing, now) && k in db'.txs.newBlockTxs
    ensures PlacedRow(db', k, h)
  {
    InsertView(db, b, txs, missing, now);
    InsertBlockTxsStores(db.txs.newBlockTxs, b, |b.txs|);
    if k in db.txs.newBlockTxs {
      h :| PlacedRow(db, k, h);
      RowStays(db, db', k, h);
    } else {
      h := b.height;
      OwnRowIsPlaced(db', b, k);
    }
  }

  lemma InsertKeepsPlaced(db: Db, b: Block, txs: seq<TxId>, missing: seq<TxId>, now: int)
    requires Placed(db) && FreshBlock(db, b)
    ensures Placed(InsertBlock(db, b, txs, missing, now))
  {
    var db' := InsertBlock(db, b, txs, missing, now);
    InsertView(db, b, txs, missing, now);
    StableTxsKeepRows(db.txs, db'.txs);
    forall k | k in db'.txs.newBlockTxs ensures exists h :: PlacedRow(db', k, h) {
      var h := InsertPlacesRow(db, b, txs, missing, now, db', k);
    }
  }

  lemma StableTxsKeepRows(t: Txs, t': Txs)
    requires t'.stableTxs == t.stableTxs && t'.stableBlockTxs == t.stableBlockTxs
    requires forall tx :: tx in t.stableTxs ==> HasStableRow(t, tx)
    ensures forall tx :: tx in t'.stableTxs ==> HasStableRow(t', tx)
  {
    forall tx | tx in t'.stableTxs ensures HasStableRow(t', tx) {
      assert HasStableRow(t, tx);
    }
  }

  lemma ResetKeepsPlaced(db: Db, r: int)
    requires Placed(db) && AboveAllStable(db, r)
    ensures Placed(ResetToHeight(db, r))
  {
    var db' := ResetToHeight(db, r);
    ResetView(db, r);
    forall k | k in db'.txs.newBlockTxs ensures exists h :: PlacedRow(db', k, h) {
      var h :| PlacedRow(db, k, h);
      assert PlacedRow(db', k, h);
    }
    StableTxsKeepRows(db.txs, db'.txs);
  }

  lemma SaveTxKeepsPlaced(db: Db, tx: TxId, height: Option<nat>, now: int)
    requires Placed(db)
    ensures Placed(SaveTx(db, tx, height, now))
  {
    var db' := SaveTx(db, tx, height, now);
    forall k | k in db'.txs.newBlockTxs ensures exists h :: PlacedRow(db', k, h) {
      if k in db.txs.newBlockTxs {
        var h :| PlacedRow(db, k, h);
        assert PlacedRow(db', k, h);
      } else {
        assert k in db.txs.stableBlockTxs;
        var h :| IsBlockTx(db.blocks.stableBlocks, k, h);
        StableIsInView(db.blocks, h);
        assert PlacedRow(db', k, h);
      }
    }
    StableTxsKeepRows(db.txs, db'.txs);
  }

  lemma StableIsInView(t: Tables, h: nat)
    requires Valid(t) && h in t.stableBlocks
    ensures h in View(t) && View(t)[h] == t.stableBlocks[h]
  {
  }

  lemma FlushKeepsPlaced(db: Db, end: int, indexedBefore: int)
    requires Placed(db)
    ensures Placed(FlushDb(db, end, indexedBefore))
  {
    var db' := FlushDb(db, end, indexedBefore);
    FlushView(db, end, indexedBefore);
    FlushMovesExactly(db, end, indexedBefore);
    forall k | k in db'.txs.newBlockTxs ensures exists h :: PlacedRow(db', k, h) {
      var h :| PlacedRow(db, k, h);
      assert PlacedRow(db', k, h);
    }
    forall k | k in db'.txs.stableBlockTxs ensures exists h :: IsBlockTx(db'.blocks.stableBlocks, k, h) {
      FlushedRowIsOwned(db, end, indexedBefore, k);
    }
    forall tx | tx in db'.txs.stableTxs ensures HasStableRow(db'.txs, tx) {
      if tx in db.txs.stableTxs {
        assert HasStableRow(db.txs, tx);
      }
    }
  }

  /** A row below the end belongs to a block that the flush makes stable, if it was not. */
  lemma FlushedRowIsOwned(db: Db, end: int, indexedBefore: int, k: BlockTx)
    requires Placed(db) && (k in db.txs.stableBlockTxs || RowBelow(db.txs, k, end))
    ensures exists h :: IsBlockTx(FlushDb(db, end, indexedBefore).blocks.stableBlocks, k, h)
  {
    var stable := FlushDb(db, end, indexedBefore).blocks.stableBlocks;
    FlushView(db, end, indexedBefore);
    if k in db.txs.stableBlockTxs {
      var h :| IsBlockTx(db.blocks.stableBlocks, k, h);
      assert IsBlockTx(stable, k, h);
    } else {
      var h :| PlacedRow(db, k, h);
      FlushMoves(db, end, h);
      StableIsInView(Flush(db.blocks, end), h);
      assert IsBlockTx(stable, k, h);
    }
  }

  lemma FlushAfterKeepsPlaced(db: Db, height: nat, indexedBefore: int)
    requires Placed(db)
    ensures Placed(FlushDbAfter(db, height, indexedBefore))
  {
    if height % STABLE_FLUSH_INTERVAL == 0 {
      FlushKeepsPlaced(db, height - MAX_FORK_DEPTH, indexedBefore);
    }
  }

  lemma StepKeepsPlaced(db: Db, op: Op)
    requires Placed(db) && Enabled(db, op)
    ensures Placed(Perform(db, op))
  {
    match op
    case SaveBlockOp(b, txs, missing, now, indexedBefore) =>
      InsertKeepsPlaced(db, b, txs, missing, now);
      FlushAfterKeepsPlaced(InsertBlock(db, b, txs, missing, now), b.height, indexedBefore);
    case ResetOp(r) => ResetKeepsPlaced(db, r);
    case SaveTxOp(tx, height, now) => SaveTxKeepsPlaced(db, tx, height, now);
  }

  lemma {:induction false} RunIsPlaced(ops: seq<Op>, k: nat)
    requires AllEnabled(ops) && k <= |ops|
    ensures Placed(StateAt(ops, k))
  {
    if k > 0 {
      RunIsPlaced(ops, k - 1);
      StateStep(ops, k - 1);
      StepKeepsPlaced(StateAt(ops, k - 1), ops[k - 1]);
    }
  }

  /** A block of the stable tier lists the transaction. */
  ghost predicate ListedStably(t: Tables, tx: TxId, h: nat) {
    h in t.stableBlocks && tx in t.stableBlocks[h].txs
  }

  /** In every run, lossy or not, each stable transaction is listed by a block of the stable tier. */
  lemma StableTxsHaveStableBlocks(ops: seq<Op>, k: nat)
    requires AllEnabled(ops) && k <= |ops|
    ensures forall tx :: tx in StateAt(ops, k).txs.stableTxs ==> exists h :: ListedStably(StateAt(ops, k).blocks, tx, h)
  {
    var db := StateAt(ops, k);
    RunIsPlaced(ops, k);
    forall tx | tx in db.txs.stableTxs ensures exists h :: ListedStably(db.blocks, tx, h) {
      assert HasStableRow(db.txs, tx);
      var row :| row in db.txs.stableBlockTxs && row.tx == tx;
      var h :| IsBlockTx(db.blocks.stableBlocks, row, h);
      assert ListedStably(db.blocks, tx, h);
    }
  }

  /** In a run whose resets are safe, each transaction of a stable block is stable, or still missing for that block. */
  lemma StableBlocksAreComplete(ops: seq<Op>, k: nat, h: nat, i: nat)
    requires AllEnabled(ops) && ResetsSafe(ops) && k <= |ops|
    requires var db := StateAt(ops, k); h in db.blocks.stableBlocks && i < |db.blocks.stableBlocks[h].txs|
    ensures var db := StateAt(ops, k); var b := db.blocks.stableBlocks[h];
      && (b.txs[i] in db.txs.stableTxs || (b.hash, b.txs[i]) in db.txs.missing)
      && BlockTx(b.hash, b.txs[i], i) in db.txs.stableBlockTxs
  {
    var db := StateAt(ops, k);
    RunIsDated(ops, k);
    StableIsInView(db.blocks, h);
    assert Listed(db, h, i) && Kept(db, Key(db, h, i), h);
  }

  // ---------------------------------------------------------------- nothing is stored that was not delivered

  predicate Delivers(op: Op, tx: TxId) {
    match op
    case SaveBlockOp(_, txs, _, _, _) => tx in txs
    case ResetOp(_) => false
    case SaveTxOp(x, _, _) => x == tx
  }

  lemma StepStoresTheDelivered(db: Db, op: Op)
    ensures var t, t' := db.txs, Perform(db, op).txs;
      forall tx :: tx in t'.newTxs || tx in t'.stableTxs ==> tx in t.newTxs || tx in t.stableTxs || Delivers(op, tx)
  {
    match op
    case SaveBlockOp(b, txs, missing, now, indexedBefore) =>
      var inserted := InsertBlock(db, b, txs, missing, now);
      UpsertAllStores(db.txs.newTxs, txs, b.height, now);
      FlushMovesExactly(inserted, b.height - MAX_FORK_DEPTH, indexedBefore);
    case ResetOp(_) =>
    case SaveTxOp(_, _, _) =>
  }

  /** In every run, whatever is stored, new or stable, came with a block or late. */
  lemma {:induction false} StoredWasDelivered(ops: seq<Op>, k: nat, tx: TxId)
    requires k <= |ops| && (tx in StateAt(ops, k).txs.newTxs || tx in StateAt(ops, k).txs.stableTxs)
    ensures exists j: nat :: j < k && Delivers(ops[j], tx)
  {
    if k > 0 {
      StateStep(ops, k - 1);
      StepStoresTheDelivered(StateAt(ops, k - 1), ops[k - 1]);
      if !Delivers(ops[k - 1], tx) {
        StoredWasDelivered(ops, k - 1, tx);
      }
    }
  }

  // ---------------------------------------------------------------- the importer's stable transactions

  lemma StepKeepsDeep(db: Db, op: Op)
    requires Sound(db.blocks) && DeepIsStable(db.blocks) && Enabled(db, op)
    ensures DeepIsStable(Perform(db, op).blocks)
  {
    match op
    case SaveBlockOp(b, _, _, _, _) => SaveKeepsDeepStable(db.blocks, b);
    case ResetOp(r) => StepKeepsDeepStable(db.blocks, ResetEvent(r));
    case SaveTxOp(_, _, _) =>
  }

  /** In every run, an indexed block more than 50 below an indexed multiple of five is stable. */
  lemma {:induction false} DeepBlocksAreStable(ops: seq<Op>, k: nat)
    requires AllEnabled(ops) && k <= |ops|
    ensures DeepIsStable(StateAt(ops, k).blocks)
  {
    if k > 0 {
      DeepBlocksAreStable(ops, k - 1);
      RunIsPlaced(ops, k - 1);
      StateStep(ops, k - 1);
      StepKeepsDeep(StateAt(ops, k - 1), ops[k - 1]);
    }
  }

  lemma {:induction false} LateOnesKeepBlocks(t: Tables, ops: seq<Op>)
    ensures ImporterOps.AllBlocksAfter(t, ops) == ImporterOps.AllBlocksAfter(t, ImporterOps.WithoutLate(ops))
    decreases |ops|
  {
    if ops != [] {
      LateOnesKeepBlocks(ImporterOps.BlocksAfter(t, ops[0]), ops[1..]);
      if ops[0].SaveTxOp? {
        assert ImporterOps.WithoutLate(ops) == ImporterOps.WithoutLate(ops[1..]);
      } else {
        assert ImporterOps.WithoutLate(ops)[1..] == ImporterOps.WithoutLate(ops[1..]);
      }
    }
  }

  lemma {:induction false} PerformedBlocks(db: Db, ops: seq<Op>)
    ensures ImporterOps.AllPerformed(db, ops).blocks == ImporterOps.AllBlocksAfter(db.blocks, ops)
    decreases |ops|
  {
    if ops != [] {
      ImporterOps.PerformBlocks(db, ops[0]);
      PerformedBlocks(Perform(db, ops[0]), ops[1..]);
    }
  }

  /** Late transactions among the importer's operations leave the block tables that the main loop leaves. */
  lemma RunBlocks(
      s: BlockImporter.LoopState, start: nat, stop: Option<int>, turns: seq<BlockImporter.Turn>, ops: seq<Op>)
    requires ImporterRuns.Fresh(s) && ImporterOps.WithoutLate(ops) == ImporterOps.RunOps(s, start, stop, turns)
    ensures StateAt(ops, |ops|).blocks == BlockImporter.AfterTurns(s, start, stop, turns).db.blocks
  {
    ImporterOps.BlocksAt(ops, |ops|);
    assert ops[..|ops|] == ops;
    LateOnesKeepBlocks(EMPTY_DB.blocks, ops);
    ImporterOps.RunPerformed(s, start, stop, turns);
    PerformedBlocks(s.db, ImporterOps.RunOps(s, start, stop, turns));
  }

  /**
   After every importer run against a source that reorganises within the bound, with late transactions anywhere between
   its saves, each stable transaction is listed by a block of the chain last served, 51 or more down.
   */
  lemma ImporterStableTxsAreFinal(
      s: BlockImporter.LoopState, start: nat, stop: Option<int>, turns: seq<BlockImporter.Turn>,
      chains: seq<seq<Block>>, universe: iset<Block>, ops: seq<Op>, tx: TxId) returns (h: nat)
    requires ImporterRuns.Fresh(s) && Finality.HashDeterminesBlock(universe)
    requires |chains| == |turns| && ImporterOps.AllSplit(turns)
    requires ImporterRuns.Bounded(s, -1, start, stop, turns, chains, universe)
    requires ImporterOps.WithoutLate(ops) == ImporterOps.RunOps(s, start, stop, turns)
      && ImporterOps.LateHeightsRead(ops)
    requires tx in StateAt(ops, |ops|).txs.stableTxs
    ensures var rounds := ImporterRuns.Rounds(s, start, stop, turns, chains);
      && rounds != [] && h <= Finality.After(start, rounds).highWater - (MAX_FORK_DEPTH + 1)
      && h < |rounds[|rounds| - 1].chain| && tx in rounds[|rounds| - 1].chain[h].txs
  {
    ImporterOps.ImporterRunsAreEnabled(s, start, stop, turns, chains, universe, ops);
    StableTxsHaveStableBlocks(ops, |ops|);
    h :| ListedStably(StateAt(ops, |ops|).blocks, tx, h);
    RunBlocks(s, start, stop, turns, ops);
    ImporterRuns.StableRowsAreTheSources(s, start, stop, turns, chains, universe);
  }
}
