/**
 A run that loses a transaction. It was stored on its own, two blocks then list it, a reset drops the upper one and
 with it the height of the row they share, and the next flush finds that row older than its cut-off while the lower
 block is still too young to be copied.
 */
module TxLoss {
  import opened Options
  import opened Chain
  import opened BlockTables
  import opened TxTables
  import opened TxConservation

  /** When every block of the run is mined and saved, more than two hours after the transaction was stored. */
  const TIMESTAMP: nat := 10_000
  const TX: TxId := "x"

  function Name(h: nat): (s: string)
    ensures |s| == h
  {
    seq(h, _ => 'a')
  }

  function BlockAt(h: nat, txs: seq<TxId>): Block {
    Block(h, Name(h), if h == 0 then None else Some(Name(h - 1)), TIMESTAMP, txs)
  }

  const LOWER: Block := BlockAt(58, [TX])

  /** The block that the reset drops. */
  const UPPER: Block := Block(59, Name(100), Some(Name(58)), TIMESTAMP, [TX])

  const NEXT: Block := BlockAt(59, [])
  const LAST: Block := BlockAt(60, [])

  /** Every save of the run was given the cut-off that the worker computes. */
  ghost predicate WorkerCutOffs(ops: seq<Op>) {
    forall k: nat :: k < |ops| && ops[k].SaveBlockOp? ==> ops[k].indexedBefore == CutOff(StateAt(ops, k))
  }

  ghost predicate Possible(ops: seq<Op>) {
    AllEnabled(ops) && WorkerCutOffs(ops)
  }

  lemma Append(ops: seq<Op>, op: Op) returns (all: seq<Op>)
    requires Possible(ops) && Enabled(After(ops), op)
    requires op.SaveBlockOp? ==> op.indexedBefore == CutOff(After(ops))
    ensures all == ops + [op] && Possible(all) && After(all) == Perform(After(ops), op)
  {
    all := ops + [op];
    assert all[..|ops|] == ops;
    forall k: nat | k < |all| ensures StateAt(all, k) == if k < |ops| then StateAt(ops, k) else After(ops) {
      assert k < |ops| ==> all[..k] == ops[..k];
    }
  }

  // ---------------------------------------------------------------- the tables of the run

  /** Blocks without transactions, stable below `from` and new up to `n`, and the blocks of `top` above them. */
  ghost predicate Holds(t: Tables, from: nat, n: nat, top: map<nat, Block>) {
    && (forall h :: h in t.stableBlocks <==> 0 <= h < from)
    && (forall h :: h in t.stableBlocks ==> t.stableBlocks[h] == BlockAt(h, []))
    && (forall h :: h in t.newBlocks <==> from <= h < n || h in top)
    && (forall h :: h in t.newBlocks ==> t.newBlocks[h] == if h in top then top[h] else BlockAt(h, []))
  }

  /** A block that goes on top: higher than all the others and under a name of its own. */
  ghost predicate Tops(from: nat, n: nat, top: map<nat, Block>, b: Block) {
    && from <= n <= b.height && |b.hash| >= b.height
    && (forall h :: h in top ==> n <= h < b.height && top[h].hash != b.hash)
  }

  lemma SavesOnTopOf(t: Tables, from: nat, n: nat, top: map<nat, Block>, b: Block)
    requires Holds(t, from, n, top) && Tops(from, n, top, b)
    ensures SavesOnTop(t, b) && !HasHash(View(t), b.hash) && !HasHash(t.newBlocks, b.hash)
  {
  }

  lemma TopIsHeld(t: Tables, from: nat, n: nat, top: map<nat, Block>, b: Block)
    requires Holds(t, from, n, top) && Tops(from, n, top, b)
    ensures Holds(t.(newBlocks := t.newBlocks[b.height := b]), from, n, top[b.height := b])
  {
  }

  lemma InsertOnTop(t: Tables, from: nat, n: nat, top: map<nat, Block>, b: Block)
    requires Holds(t, from, n, top) && Tops(from, n, top, b)
    ensures InsertNewBlock(t, b) == t.(newBlocks := t.newBlocks[b.height := b])
    ensures Holds(InsertNewBlock(t, b), from, n, top[b.height := b])
  {
    SavesOnTopOf(t, from, n, top, b);
    TopIsHeld(t, from, n, top, b);
  }

  /** The transaction tables while the row of the transaction has `height`. */
  function SharedTxs(rows: map<BlockTx, nat>, height: Option<nat>): Txs {
    Txs(rows, {}, map[TX := NewTx(height, 0)], {}, map[])
  }

  const LOWER_KEY: BlockTx := BlockTx(LOWER.hash, TX, 0)
  const UPPER_KEY: BlockTx := BlockTx(UPPER.hash, TX, 0)

  // ---------------------------------------------------------------- fifty-eight blocks without transactions

  /** How far a chain of `n` blocks has been flushed: the save of height 55 flushes below height 5. */
  function Flushed(n: nat): nat {
    if n <= 55 then 0 else 5
  }

  lemma FlushNothing(t: Tables, end: int)
    requires end <= 0
    ensures Flush(t, end) == t
  {
    assert CopyStable(t, end).stableBlocks == t.stableBlocks;
  }

  lemma FlushFive(t: Tables, n: nat)
    requires Holds(t, 0, n, map[]) && n >= 5
    ensures Holds(Flush(t, 5), 5, n, map[])
  {
    assert t.stableBlocks == map[];
  }

  lemma AbsorbTop(t: Tables, from: nat, n: nat)
    requires Holds(t, from, n, map[n := BlockAt(n, [])]) && from <= n
    ensures Holds(t, from, n + 1, map[])
  {
  }

  lemma EmptyBlockGrowsChain(t: Tables, n: nat)
    requires Holds(t, Flushed(n), n, map[]) && n < 58
    ensures Holds(SaveBlock(t, BlockAt(n, [])), Flushed(n + 1), n + 1, map[])
  {
    var b := BlockAt(n, []);
    InsertOnTop(t, Flushed(n), n, map[], b);
    var inserted := InsertNewBlock(t, b);
    AbsorbTop(inserted, Flushed(n), n);
    if n == 55 {
      FlushFive(inserted, n + 1);
    } else if n % STABLE_FLUSH_INTERVAL == 0 {
      FlushNothing(inserted, n - MAX_FORK_DEPTH);
    }
  }

  lemma InsertNoTxs(t: Txs, b: Block, now: int)
    requires b.txs == []
    ensures InsertTxs(t, b, [], [], now) == t
  {
  }

  lemma FlushBoth(db: Db, height: nat, indexedBefore: int)
    ensures FlushDbAfter(db, height, indexedBefore).blocks == FlushAfter(db.blocks, height)
    ensures FlushDbAfter(db, height, indexedBefore).txs
      == if height % STABLE_FLUSH_INTERVAL == 0 then FlushTxs(db.txs, height - MAX_FORK_DEPTH, indexedBefore)
        else db.txs
  {
  }

  /** Saving a block without transactions changes the transaction tables only by the flush. */
  lemma EmptySave(db: Db, b: Block, now: int, indexedBefore: int)
    requires b.txs == []
    ensures var db' := SaveBlockAndTxs(db, b, [], [], now, indexedBefore);
      && db'.blocks == SaveBlock(db.blocks, b)
      && db'.txs == if b.height % STABLE_FLUSH_INTERVAL == 0 then
        FlushTxs(db.txs, b.height - MAX_FORK_DEPTH, indexedBefore) else db.txs
  {
    InsertNoTxs(db.txs, b, now);
    FlushBoth(InsertBlock(db, b, [], [], now), b.height, indexedBefore);
  }

  lemma WaitingTxStays(end: int, indexedBefore: int)
    requires indexedBefore <= 0
    ensures FlushTxs(SharedTxs(map[], None), end, indexedBefore) == SharedTxs(map[], None)
  {
  }

  lemma EarlyCutOff(db: Db, n: nat)
    requires Holds(db.blocks, 0, n, map[])
    ensures CutOff(db) <= 0
  {
    assert db.blocks.stableBlocks == map[];
  }

  lemma WaitingTxIsNotSwept(db: Db, n: nat)
    requires n < 58 && Holds(db.blocks, Flushed(n), n, map[]) && db.txs == SharedTxs(map[], None)
    ensures n % STABLE_FLUSH_INTERVAL == 0 ==> FlushTxs(db.txs, n - MAX_FORK_DEPTH, CutOff(db)) == db.txs
  {
    if n <= 55 {
      EarlyCutOff(db, n);
      WaitingTxStays(n - MAX_FORK_DEPTH, CutOff(db));
    }
  }

  lemma FreshOnTop(db: Db, from: nat, n: nat, top: map<nat, Block>, b: Block, cut: int)
    requires Holds(db.blocks, from, n, top) && Tops(from, n, top, b)
    ensures Enabled(db, SaveBlockOp(b, b.txs, [], TIMESTAMP, cut))
  {
    SavesOnTopOf(db.blocks, from, n, top, b);
  }

  lemma GrowDb(db: Db, n: nat) returns (op: Op)
    requires n < 58 && Holds(db.blocks, Flushed(n), n, map[]) && db.txs == SharedTxs(map[], None)
    ensures op == SaveBlockOp(BlockAt(n, []), [], [], TIMESTAMP, CutOff(db)) && Enabled(db, op)
    ensures Holds(Perform(db, op).blocks, Flushed(n + 1), n + 1, map[]) && Perform(db, op).txs == db.txs
  {
    var b, cut := BlockAt(n, []), CutOff(db);
    op := SaveBlockOp(b, [], [], TIMESTAMP, cut);
    FreshOnTop(db, Flushed(n), n, map[], b, cut);
    WaitingTxIsNotSwept(db, n);
    EmptyBlockGrowsChain(db.blocks, n);
    EmptySave(db, b, TIMESTAMP, cut);
  }

  lemma WaitingTx()
    ensures Enabled(EMPTY_DB, SaveTxOp(TX, None, 0))
    ensures var db := Perform(EMPTY_DB, SaveTxOp(TX, None, 0));
      Holds(db.blocks, 0, 0, map[]) && db.txs == SharedTxs(map[], None)
  {
  }

  /** The transaction arrives before any block, and then `n` blocks without transactions. */
  lemma {:induction false} EmptyChain(n: nat) returns (ops: seq<Op>)
    requires n <= 58
    ensures Possible(ops) && Holds(After(ops).blocks, Flushed(n), n, map[]) && After(ops).txs == SharedTxs(map[], None)
  {
    if n == 0 {
      WaitingTx();
      ops := Append([], SaveTxOp(TX, None, 0));
    } else {
      ops := EmptyChain(n - 1);
      var op := GrowDb(After(ops), n - 1);
      ops := Append(ops, op);
    }
  }

  // ---------------------------------------------------------------- the shared transaction

  lemma InsertShared(rows: map<BlockTx, nat>, height: Option<nat>, b: Block)
    requires b.txs == [TX] && BlockTx(b.hash, TX, 0) !in rows
    ensures InsertTxs(SharedTxs(rows, height), b, [TX], [], TIMESTAMP)
      == SharedTxs(rows[BlockTx(b.hash, TX, 0) := b.height], Some(b.height))
  {
    var t := SharedTxs(rows, height);
    assert [TX][..0] == [];
    assert UpsertAll(t.newTxs, [], b.height, TIMESTAMP) == t.newTxs;
    assert UpsertAll(t.newTxs, [TX], b.height, TIMESTAMP) == Upsert(t.newTxs, TX, Some(b.height), TIMESTAMP);
    assert InsertBlockTxs(rows, b, 0) == rows;
    assert InsertBlockTxs(rows, b, 1) == rows[BlockTx(b.hash, TX, 0) := b.height];
  }

  /** A block between flushes that lists the transaction gives the shared row its height. */
  lemma SaveShared(
      db: Db, top: map<nat, Block>, rows: map<BlockTx, nat>, height: Option<nat>, b: Block) returns (op: Op)
    requires Holds(db.blocks, 5, 58, top) && db.txs == SharedTxs(rows, height)
    requires b.txs == [TX] && BlockTx(b.hash, TX, 0) !in rows && Tops(5, 58, top, b)
    requires b.height % STABLE_FLUSH_INTERVAL != 0
    ensures op == SaveBlockOp(b, [TX], [], TIMESTAMP, CutOff(db)) && Enabled(db, op)
    ensures Holds(Perform(db, op).blocks, 5, 58, top[b.height := b])
    ensures Perform(db, op).txs == SharedTxs(rows[BlockTx(b.hash, TX, 0) := b.height], Some(b.height))
  {
    op := SaveBlockOp(b, [TX], [], TIMESTAMP, CutOff(db));
    SavesOnTopOf(db.blocks, 5, 58, top, b);
    InsertOnTop(db.blocks, 5, 58, top, b);
    InsertShared(rows, height, b);
  }

  /** The reset drops the upper block and leaves the shared row without a height. */
  lemma ResetShared(db: Db)
    requires Holds(db.blocks, 5, 58, map[58 := LOWER, 59 := UPPER])
    requires db.txs == SharedTxs(map[LOWER_KEY := 58, UPPER_KEY := 59], Some(59))
    ensures Enabled(db, ResetOp(58))
    ensures Holds(Perform(db, ResetOp(58)).blocks, 5, 58, map[58 := LOWER])
    ensures Perform(db, ResetOp(58)).txs == SharedTxs(map[LOWER_KEY := 58], None)
  {
    assert |LOWER_KEY.block| != |UPPER_KEY.block|;
  }

  lemma SharedRun() returns (ops: seq<Op>)
    ensures Possible(ops) && Holds(After(ops).blocks, 5, 58, map[58 := LOWER])
    ensures After(ops).txs == SharedTxs(map[LOWER_KEY := 58], None)
  {
    ops := EmptyChain(58);
    var op := SaveShared(After(ops), map[], map[], None, LOWER);
    ops := Append(ops, op);
    op := SaveShared(After(ops), map[58 := LOWER], map[LOWER_KEY := 58], Some(58), UPPER);
    ops := Append(ops, op);
    ResetShared(After(ops));
    ops := Append(ops, ResetOp(58));
  }

  // ---------------------------------------------------------------- the flush that sweeps the row

  lemma LateCutOff(db: Db, top: map<nat, Block>)
    requires Holds(db.blocks, 5, 58, top)
    ensures CutOff(db) == TIMESTAMP - NEW_TX_CLEANUP_WAIT_SECS
  {
    var rows := db.blocks.stableBlocks;
    assert 0 in rows;
    assert IsMaxTimestamp(rows, MaxTimestamp(rows));
  }

  /** A block without transactions between flushes. */
  lemma SaveNext(db: Db) returns (op: Op)
    requires Holds(db.blocks, 5, 58, map[58 := LOWER]) && db.txs == SharedTxs(map[LOWER_KEY := 58], None)
    ensures op.SaveBlockOp? && op.indexedBefore == CutOff(db) && Enabled(db, op)
    ensures Holds(Perform(db, op).blocks, 5, 58, map[58 := LOWER, 59 := NEXT]) && Perform(db, op).txs == db.txs
  {
    op := SaveBlockOp(NEXT, [], [], TIMESTAMP, CutOff(db));
    SavesOnTopOf(db.blocks, 5, 58, map[58 := LOWER], NEXT);
    InsertOnTop(db.blocks, 5, 58, map[58 := LOWER], NEXT);
    EmptySave(db, NEXT, TIMESTAMP, CutOff(db));
  }

  lemma SweepShared()
    ensures var t := FlushTxs(SharedTxs(map[LOWER_KEY := 58], None), 10, TIMESTAMP - NEW_TX_CLEANUP_WAIT_SECS);
      TX !in t.newTxs && t.stableTxs == {} && t.missing == map[]
  {
  }

  lemma SaveKeepsLower(t: Tables)
    requires Holds(t, 5, 58, map[58 := LOWER, 59 := NEXT])
    ensures var t' := SaveBlock(t, LAST); 58 in t'.newBlocks && t'.newBlocks[58] == LOWER
  {
    InsertOnTop(t, 5, 58, map[58 := LOWER, 59 := NEXT], LAST);
  }

  lemma LowerIsLost(db: Db)
    requires 58 in db.blocks.newBlocks && db.blocks.newBlocks[58] == LOWER
    requires TX !in db.txs.newTxs && db.txs.stableTxs == {} && db.txs.missing == map[]
    ensures !NothingLost(db)
  {
    assert Listed(db, 58, 0) && Key(db, 58, 0) == LOWER_KEY;
  }

  /** The flush of the last save sweeps the shared row, while the block at 58 stays indexed. */
  lemma SaveLast(db: Db) returns (op: Op)
    requires Holds(db.blocks, 5, 58, map[58 := LOWER, 59 := NEXT]) && db.txs == SharedTxs(map[LOWER_KEY := 58], None)
    ensures op.SaveBlockOp? && op.indexedBefore == CutOff(db) && Enabled(db, op)
    ensures !NothingLost(Perform(db, op))
  {
    op := SaveBlockOp(LAST, [], [], TIMESTAMP, CutOff(db));
    FreshOnTop(db, 5, 58, map[58 := LOWER, 59 := NEXT], LAST, CutOff(db));
    EmptySave(db, LAST, TIMESTAMP, CutOff(db));
    LateCutOff(db, map[58 := LOWER, 59 := NEXT]);
    SaveKeepsLower(db.blocks);
    SweepShared();
    LowerIsLost(Perform(db, op));
  }

  /**
   Every operation of the run is one the importer makes and every flush uses the worker's own cut-off, yet an indexed
   block ends up with a transaction that is neither stored nor listed as missing.
   */
  lemma SharedTransactionCanBeLost() returns (ops: seq<Op>)
    ensures AllEnabled(ops) && WorkerCutOffs(ops) && !NothingLost(After(ops))
  {
    ops := SharedRun();
    var op := SaveNext(After(ops));
    ops := Append(ops, op);
    op := SaveLast(After(ops));
    ops := Append(ops, op);
  }
}
