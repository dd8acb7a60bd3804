/**
 No transaction of an indexed block is ever lost: it is stored, or it is listed as missing. A transaction may be
 listed by any number of blocks, and any number of times by one.
 */
module TxConservation {
  import opened Options
  import opened Chain
  import opened BlockTables
  import opened TxTables

  ghost predicate IsBlockTx(ix: Index, k: BlockTx, h: nat) {
    h in ix && ix[h].hash == k.block && k.index < |ix[h].txs| && ix[h].txs[k.index] == k.tx
  }

  /** Place `i` of the transaction list of the block at height `h`. */
  ghost predicate Listed(db: Db, h: nat, i: nat) {
    h in View(db.blocks) && i < |View(db.blocks)[h].txs|
  }

  ghost function Key(db: Db, h: nat, i: nat): BlockTx
    requires Listed(db, h, i)
  {
    BlockTx(View(db.blocks)[h].hash, View(db.blocks)[h].txs[i], i)
  }

  /** Held by nothing but a row of `new_transactions`. */
  predicate OnlyNew(t: Txs, k: BlockTx) {
    k.tx in t.newTxs && k.tx !in t.stableTxs && (k.block, k.tx) !in t.missing
  }

  /** The property itself: every transaction of every indexed block is stored or listed as missing. */
  ghost predicate NothingLost(db: Db) {
    forall h: nat, i: nat :: Listed(db, h, i) ==> Stored(db.txs, Key(db, h, i))
  }

  predicate Stored(t: Txs, k: BlockTx) {
    k.tx in t.newTxs || k.tx in t.stableTxs || (k.block, k.tx) in t.missing
  }

  // ---------------------------------------------------------------- the invariant

  /**
   A row of an indexed block: at the block's height, unless the block is stable and the row was brought back, which is
   at or below it as long as the transaction is not stable.
   */
  ghost predicate OwnRow(db: Db, k: BlockTx, height: nat, h: nat) {
    && IsBlockTx(View(db.blocks), k, h)
    && (h !in db.blocks.stableBlocks ==> height == h)
    && (k.tx !in db.txs.stableTxs ==> height <= h)
  }

  ghost predicate StableRowsOwned(db: Db) {
    forall k :: k in db.txs.stableBlockTxs ==> exists h :: IsBlockTx(db.blocks.stableBlocks, k, h)
  }

  ghost predicate NewRowsOwned(db: Db) {
    forall k :: k in db.txs.newBlockTxs ==> exists h :: OwnRow(db, k, db.txs.newBlockTxs[k], h)
  }

  ghost predicate MissingOwned(db: Db) {
    var ix := View(db.blocks);
    forall m :: m in db.txs.missing ==>
      var h := db.txs.missing[m]; h in ix && ix[h].hash == m.0 && m.1 in ix[h].txs
  }

  /** Rows brought back for a transaction stand no higher than any height it is missing at. */
  ghost predicate BroughtBackLow(t: Txs) {
    forall k, m ::
      k in t.newBlockTxs && k in t.stableBlockTxs && m in t.missing && m.1 == k.tx && k.tx !in t.stableTxs ==>
      t.newBlockTxs[k] <= t.missing[m]
  }

  predicate RowUpTo(t: Txs, k: BlockTx, tx: TxId, height: nat) {
    k in t.newBlockTxs && k.tx == tx && t.newBlockTxs[k] <= height
  }

  /** A transaction with a height has a block row that the flush of that height joins it with. */
  ghost predicate Backed(t: Txs) {
    forall tx :: tx in t.newTxs && t.newTxs[tx].height.Some? && tx !in t.stableTxs ==>
      exists k :: RowUpTo(t, k, tx, t.newTxs[tx].height.value)
  }

  /** The height of a transaction is that of an indexed block that lists it. */
  ghost predicate HeightsListed(db: Db) {
    var ix := View(db.blocks);
    forall tx :: tx in db.txs.newTxs && db.txs.newTxs[tx].height.Some? ==>
      var h := db.txs.newTxs[tx].height.value; h in ix && tx in ix[h].txs
  }

  /** The block row is in the tier its block is in, and below the stable tier a new row is not enough. */
  ghost predicate Kept(db: Db, k: BlockTx, h: nat) {
    && Stored(db.txs, k)
    && (h in db.blocks.stableBlocks ==> k in db.txs.stableBlockTxs && !OnlyNew(db.txs, k))
    && (h !in db.blocks.stableBlocks ==> k in db.txs.newBlockTxs)
  }

  ghost predicate AllKept(db: Db) {
    forall h: nat, i: nat :: Listed(db, h, i) ==> Kept(db, Key(db, h, i), h)
  }

  ghost predicate RowsOwned(db: Db) {
    StableRowsOwned(db) && NewRowsOwned(db) && MissingOwned(db)
  }

  ghost predicate Tracked(db: Db) {
    && Sound(db.blocks) && RowsOwned(db) && AllKept(db)
    && BroughtBackLow(db.txs) && Backed(db.txs) && HeightsListed(db)
  }

  /** Every listed transaction that only its new row holds has a height there. */
  ghost predicate Dated(db: Db) {
    forall h: nat, i: nat :: Listed(db, h, i) && OnlyNew(db.txs, Key(db, h, i)) ==>
      db.txs.newTxs[Key(db, h, i).tx].height.Some?
  }

  /** The new rows of a block that is not stable stand at its height. */
  lemma OwnHeight(db: Db, h: nat, i: nat)
    requires Sound(db.blocks) && RowsOwned(db) && Listed(db, h, i)
    ensures var k := Key(db, h, i);
      && (k in db.txs.newBlockTxs ==> OwnRow(db, k, db.txs.newBlockTxs[k], h))
      && ((k.block, k.tx) in db.txs.missing ==> db.txs.missing[(k.block, k.tx)] == h)
      && (k in db.txs.stableBlockTxs ==> h in db.blocks.stableBlocks)
  {
    var k := Key(db, h, i);
    if k in db.txs.newBlockTxs {
      var g :| OwnRow(db, k, db.txs.newBlockTxs[k], g);
      assert g == h;
    }
    if k in db.txs.stableBlockTxs {
      var g :| IsBlockTx(db.blocks.stableBlocks, k, g);
      assert g in View(db.blocks) && View(db.blocks)[g] == db.blocks.stableBlocks[g];
      assert g == h;
    }
  }

  // ---------------------------------------------------------------- resets

  /** A reset to `r` takes the height of a transaction that a retained block lists and only its new row holds. */
  ghost predicate Clears(db: Db, r: int, h: nat, i: nat) {
    Listed(db, h, i) && h <= r && OnlyNew(db.txs, Key(db, h, i)) &&
    var row := db.txs.newTxs[Key(db, h, i).tx];
    row.height.Some? && row.height.value > r
  }

  ghost predicate ResetSafe(db: Db, r: int) {
    forall h: nat, i: nat :: !Clears(db, r, h, i)
  }

  ghost predicate AboveAllStable(db: Db, r: int) {
    forall h :: h in db.blocks.stableBlocks ==> h <= r
  }

  lemma ResetView(db: Db, r: int)
    requires Sound(db.blocks) && AboveAllStable(db, r)
    ensures Sound(Reset(db.blocks, r)) && View(Reset(db.blocks, r)) == Truncate(View(db.blocks), r)
    ensures Reset(db.blocks, r).stableBlocks == db.blocks.stableBlocks
    ensures forall h: nat, i: nat :: Listed(ResetToHeight(db, r), h, i) <==> Listed(db, h, i) && h <= r
    ensures forall h: nat, i: nat :: Listed(db, h, i) && h <= r ==> Key(ResetToHeight(db, r), h, i) == Key(db, h, i)
  {
    StepRefines(db.blocks, ResetEvent(r));
    ResetRefinesTruncate(db.blocks, r);
  }

  lemma ResetOwnsRows(db: Db, r: int)
    requires Tracked(db) && AboveAllStable(db, r)
    ensures RowsOwned(ResetToHeight(db, r))
  {
    ResetView(db, r);
    var db' := ResetToHeight(db, r);
    forall k | k in db'.txs.newBlockTxs ensures exists h :: OwnRow(db', k, db'.txs.newBlockTxs[k], h) {
      var h :| OwnRow(db, k, db.txs.newBlockTxs[k], h);
      assert OwnRow(db', k, db'.txs.newBlockTxs[k], h);
    }
  }

  lemma ResetKeeps(db: Db, r: int)
    requires Tracked(db) && AboveAllStable(db, r)
    ensures AllKept(ResetToHeight(db, r))
  {
    ResetView(db, r);
    var db' := ResetToHeight(db, r);
    forall h: nat, i: nat | Listed(db', h, i) ensures Kept(db', Key(db', h, i), h) {
      assert Kept(db, Key(db, h, i), h);
      OwnHeight(db, h, i);
    }
  }

  lemma ResetBacks(t: Txs, r: int)
    requires Backed(t) && BroughtBackLow(t)
    ensures Backed(ResetTxs(t, r)) && BroughtBackLow(ResetTxs(t, r))
  {
    var t' := ResetTxs(t, r);
    forall tx | tx in t'.newTxs && t'.newTxs[tx].height.Some? && tx !in t'.stableTxs
      ensures exists k :: RowUpTo(t', k, tx, t'.newTxs[tx].height.value)
    {
      var k :| RowUpTo(t, k, tx, t.newTxs[tx].height.value);
      assert RowUpTo(t', k, tx, t'.newTxs[tx].height.value);
    }
  }

  /** A reset loses nothing and keeps the invariant, whoever shares a transaction. */
  lemma ResetKeepsTracked(db: Db, r: int)
    requires Tracked(db) && AboveAllStable(db, r)
    ensures Tracked(ResetToHeight(db, r))
  {
    ResetView(db, r);
    ResetOwnsRows(db, r);
    ResetKeeps(db, r);
    ResetBacks(db.txs, r);
  }

  /** It leaves every transaction dated exactly when it clears no height that a retained block needs. */
  lemma ResetKeepsDated(db: Db, r: int)
    requires Tracked(db) && Dated(db) && AboveAllStable(db, r)
    ensures Dated(ResetToHeight(db, r)) <==> ResetSafe(db, r)
  {
    ResetView(db, r);
    var db' := ResetToHeight(db, r);
    forall h: nat, i: nat | Listed(db', h, i)
      ensures OnlyNew(db'.txs, Key(db', h, i)) <==> OnlyNew(db.txs, Key(db, h, i))
      ensures OnlyNew(db.txs, Key(db, h, i)) ==>
        (db'.txs.newTxs[Key(db, h, i).tx].height.Some? <==> !Clears(db, r, h, i))
    {
      OwnHeight(db, h, i);
    }
    if h: nat, i: nat :| Clears(db, r, h, i) {
      assert Listed(db', h, i) && OnlyNew(db'.txs, Key(db', h, i));
    }
  }

  /** Only a block above the target that lists the same transaction makes a reset unsafe. */
  lemma OnlySharingIsUnsafe(db: Db, r: int, h: nat, i: nat)
    requires Tracked(db) && Clears(db, r, h, i)
    ensures exists g: nat :: g > r && g in View(db.blocks) && Key(db, h, i).tx in View(db.blocks)[g].txs
  {
    var g := db.txs.newTxs[Key(db, h, i).tx].height.value;
    assert g in View(db.blocks);
  }

  // ---------------------------------------------------------------- flushes

  /**
   The flush sweeps away the only record of a listed transaction: its row has no height, is older than the cut-off,
   and no block row of the transaction lies below the end height, so it was not copied.
   */
  ghost predicate Sweeps(db: Db, end: int, indexedBefore: int, h: nat, i: nat) {
    Listed(db, h, i) && OnlyNew(db.txs, Key(db, h, i)) &&
    var tx := Key(db, h, i).tx;
    && db.txs.newTxs[tx].height.None? && db.txs.newTxs[tx].indexedAt < indexedBefore
    && forall k :: k in db.txs.newBlockTxs && k.tx == tx ==> db.txs.newBlockTxs[k] >= end
  }

  ghost predicate FlushSafe(db: Db, end: int, indexedBefore: int) {
    forall h: nat, i: nat :: !Sweeps(db, end, indexedBefore, h, i)
  }

  lemma FlushView(db: Db, end: int, indexedBefore: int)
    requires Sound(db.blocks)
    ensures Sound(Flush(db.blocks, end)) && View(Flush(db.blocks, end)) == View(db.blocks)
    ensures StableGrows(db.blocks, Flush(db.blocks, end))
    ensures forall h: nat, i: nat :: Listed(FlushDb(db, end, indexedBefore), h, i) <==> Listed(db, h, i)
    ensures forall h: nat, i: nat :: Listed(db, h, i) ==> Key(FlushDb(db, end, indexedBefore), h, i) == Key(db, h, i)
  {
    UniqueHashesNeverClash(db.blocks, end);
    FlushRefinesIdentity(db.blocks, end);
  }

  lemma FlushMoves(db: Db, end: int, h: nat)
    requires Sound(db.blocks) && h in View(db.blocks)
    ensures h in Flush(db.blocks, end).stableBlocks <==> h in db.blocks.stableBlocks || h < end
  {
    UniqueHashesNeverClash(db.blocks, end);
  }

  lemma FlushOwnsRows(db: Db, end: int, indexedBefore: int)
    requires Tracked(db)
    ensures RowsOwned(FlushDb(db, end, indexedBefore))
  {
    FlushView(db, end, indexedBefore);
    var db' := FlushDb(db, end, indexedBefore);
    forall k | k in db'.txs.stableBlockTxs ensures exists h :: IsBlockTx(db'.blocks.stableBlocks, k, h) {
      if k in db.txs.stableBlockTxs {
        var h :| IsBlockTx(db.blocks.stableBlocks, k, h);
        assert IsBlockTx(db'.blocks.stableBlocks, k, h);
      } else {
        var h :| OwnRow(db, k, db.txs.newBlockTxs[k], h);
        FlushMoves(db, end, h);
        assert IsBlockTx(db'.blocks.stableBlocks, k, h);
      }
    }
    forall k | k in db'.txs.newBlockTxs ensures exists h :: OwnRow(db', k, db'.txs.newBlockTxs[k], h) {
      var h :| OwnRow(db, k, db.txs.newBlockTxs[k], h);
      FlushMoves(db, end, h);
      assert OwnRow(db', k, db'.txs.newBlockTxs[k], h);
    }
  }

  /** A transaction with a height survives a flush: below the end it is copied, from there on it stays. */
  lemma DatedSurvives(t: Txs, end: int, indexedBefore: int, tx: TxId)
    requires Backed(t) && tx in t.newTxs && t.newTxs[tx].height.Some? && tx !in t.stableTxs
    ensures var t' := FlushTxs(t, end, indexedBefore);
      tx in t'.stableTxs || (t.newTxs[tx].height.value >= end && tx in t'.newTxs && t'.newTxs[tx] == t.newTxs[tx])
  {
    if t.newTxs[tx].height.value < end {
      var k :| RowUpTo(t, k, tx, t.newTxs[tx].height.value);
      assert tx in FlushedTxs(t, end);
    }
  }

  /** A listed transaction survives a flush that does not sweep it. */
  lemma FlushKeepsOne(db: Db, end: int, indexedBefore: int, h: nat, i: nat)
    requires Tracked(db) && Listed(db, h, i) && !Sweeps(db, end, indexedBefore, h, i)
    ensures Listed(FlushDb(db, end, indexedBefore), h, i)
    ensures Kept(FlushDb(db, end, indexedBefore), Key(db, h, i), h)
  {
    FlushView(db, end, indexedBefore);
    FlushMoves(db, end, h);
    OwnHeight(db, h, i);
    var k, t := Key(db, h, i), db.txs;
    var t' := FlushTxs(t, end, indexedBefore);
    assert Kept(db, k, h);
    if OnlyNew(t, k) {
      if h < end {
        assert k.tx in FlushedTxs(t, end);
      } else if t.newTxs[k.tx].height.Some? {
        DatedSurvives(t, end, indexedBefore, k.tx);
      } else if row :| row in t.newBlockTxs && row.tx == k.tx && t.newBlockTxs[row] < end {
        assert k.tx in FlushedTxs(t, end);
      }
    }
  }

  lemma FlushBacks(t: Txs, end: int, indexedBefore: int)
    requires Backed(t) && BroughtBackLow(t)
    ensures Backed(FlushTxs(t, end, indexedBefore)) && BroughtBackLow(FlushTxs(t, end, indexedBefore))
  {
    var t' := FlushTxs(t, end, indexedBefore);
    forall tx | tx in t'.newTxs && t'.newTxs[tx].height.Some? && tx !in t'.stableTxs
      ensures exists k :: RowUpTo(t', k, tx, t'.newTxs[tx].height.value)
    {
      var k :| RowUpTo(t, k, tx, t.newTxs[tx].height.value);
      assert t.newBlockTxs[k] < end ==> tx in FlushedTxs(t, end);
      assert RowUpTo(t', k, tx, t'.newTxs[tx].height.value);
    }
  }

  lemma FlushKeepsTracked(db: Db, end: int, indexedBefore: int)
    requires Tracked(db) && FlushSafe(db, end, indexedBefore)
    ensures Tracked(FlushDb(db, end, indexedBefore))
  {
    FlushView(db, end, indexedBefore);
    FlushOwnsRows(db, end, indexedBefore);
    FlushBacks(db.txs, end, indexedBefore);
    var db' := FlushDb(db, end, indexedBefore);
    forall h: nat, i: nat | Listed(db', h, i) ensures Kept(db', Key(db', h, i), h) {
      FlushKeepsOne(db, end, indexedBefore, h, i);
    }
  }

  lemma FlushKeepsDated(db: Db, end: int, indexedBefore: int)
    requires Tracked(db) && Dated(db)
    ensures Dated(FlushDb(db, end, indexedBefore))
  {
    FlushView(db, end, indexedBefore);
    var db' := FlushDb(db, end, indexedBefore);
    forall h: nat, i: nat | Listed(db', h, i) && OnlyNew(db'.txs, Key(db', h, i))
      ensures db'.txs.newTxs[Key(db', h, i).tx].height.Some?
    {
      OwnHeight(db, h, i);
      assert OnlyNew(db.txs, Key(db, h, i));
    }
  }

  lemma SweptIsLost(db: Db, end: int, indexedBefore: int, h: nat, i: nat)
    requires Tracked(db) && Sweeps(db, end, indexedBefore, h, i)
    ensures !NothingLost(FlushDb(db, end, indexedBefore))
  {
    FlushView(db, end, indexedBefore);
    var k, db' := Key(db, h, i), FlushDb(db, end, indexedBefore);
    assert k.tx !in FlushedTxs(db.txs, end);
    assert Listed(db', h, i) && Key(db', h, i) == k && !Stored(db'.txs, k);
  }

  /** A flush loses a transaction exactly when it sweeps one: an old row without a height, not copied in time. */
  lemma FlushLosesExactly(db: Db, end: int, indexedBefore: int)
    requires Tracked(db)
    ensures NothingLost(FlushDb(db, end, indexedBefore)) <==> FlushSafe(db, end, indexedBefore)
  {
    if FlushSafe(db, end, indexedBefore) {
      FlushKeepsTracked(db, end, indexedBefore);
      TrackedLosesNothing(FlushDb(db, end, indexedBefore));
    } else {
      var h: nat, i: nat :| Sweeps(db, end, indexedBefore, h, i);
      SweptIsLost(db, end, indexedBefore, h, i);
    }
  }

  lemma TrackedLosesNothing(db: Db)
    requires Tracked(db)
    ensures NothingLost(db)
  {
    forall h: nat, i: nat | Listed(db, h, i) ensures Stored(db.txs, Key(db, h, i)) {
      assert Kept(db, Key(db, h, i), h);
    }
  }

  lemma DatedIsSafe(db: Db, end: int, indexedBefore: int)
    requires Dated(db)
    ensures FlushSafe(db, end, indexedBefore)
  {
  }

  lemma UndatedIsUnsafe(db: Db, h: nat, i: nat)
    requires Listed(db, h, i) && OnlyNew(db.txs, Key(db, h, i)) && db.txs.newTxs[Key(db, h, i).tx].height.None?
    ensures Sweeps(db, 0, db.txs.newTxs[Key(db, h, i).tx].indexedAt + 1, h, i)
  {
  }

  /**
   A reset can be followed by a flush that loses a transaction exactly when it is unsafe: when some retained block
   lists a transaction that is neither stable nor missing for that block, and whose height lies above the target.
   */
  lemma ResetCanLoseExactly(db: Db, r: int)
    requires Tracked(db) && Dated(db) && AboveAllStable(db, r)
    ensures ResetSafe(db, r)
      <==> forall end: int, indexedBefore: int :: NothingLost(FlushDb(ResetToHeight(db, r), end, indexedBefore))
  {
    var db' := ResetToHeight(db, r);
    ResetKeepsTracked(db, r);
    ResetKeepsDated(db, r);
    if Dated(db') {
      forall end: int, indexedBefore: int ensures NothingLost(FlushDb(db', end, indexedBefore)) {
        DatedIsSafe(db', end, indexedBefore);
        FlushLosesExactly(db', end, indexedBefore);
      }
    } else {
      var h: nat, i: nat :| Listed(db', h, i) && OnlyNew(db'.txs, Key(db', h, i))
        && db'.txs.newTxs[Key(db', h, i).tx].height.None?;
      var indexedBefore := db'.txs.newTxs[Key(db', h, i).tx].indexedAt + 1;
      UndatedIsUnsafe(db', h, i);
      SweptIsLost(db', 0, indexedBefore, h, i);
      assert !NothingLost(FlushDb(db', 0, indexedBefore));
    }
  }

  // ---------------------------------------------------------------- saving a block

  /** `txs` and `missing` split the block's list. */
  ghost predicate Splits(b: Block, txs: seq<TxId>, missing: seq<TxId>) {
    && (forall tx :: tx in b.txs ==> tx in txs || tx in missing)
    && (forall tx :: tx in txs || tx in missing ==> tx in b.txs)
  }

  /** A block saved on top, under a hash that no indexed block has. */
  ghost predicate FreshBlock(db: Db, b: Block) {
    SavesOnTop(db.blocks, b) && !HasHash(View(db.blocks), b.hash)
  }

  lemma {:induction false} UpsertAllStores(rows: map<TxId, NewTx>, txs: seq<TxId>, height: nat, now: int)
    ensures var rows' := UpsertAll(rows, txs, height, now);
      && (forall tx :: tx in txs ==> tx in rows' && rows'[tx].height == Some(height))
      && (forall tx :: tx in rows' && tx !in txs <==> tx in rows && tx !in txs)
      && (forall tx :: tx in rows && tx !in txs ==> rows'[tx] == rows[tx])
  {
    if txs != [] {
      UpsertAllStores(rows, txs[..|txs| - 1], height, now);
      assert txs == txs[..|txs| - 1] + [txs[|txs| - 1]];
    }
  }

  lemma {:induction false} InsertBlockTxsStores(rows: map<BlockTx, nat>, b: Block, n: nat)
    requires n <= |b.txs|
    ensures var rows' := InsertBlockTxs(rows, b, n);
      && (forall i :: 0 <= i < n ==> BlockTx(b.hash, b.txs[i], i) in rows')
      && (forall k :: k in rows ==> k in rows' && rows'[k] == rows[k])
      && (forall k :: k in rows' && k !in rows ==>
            k.block == b.hash && k.index < n && k.tx == b.txs[k.index] && rows'[k] == b.height)
  {
    if n > 0 {
      InsertBlockTxsStores(rows, b, n - 1);
      OneRow(InsertBlockTxs(rows, b, n - 1), BlockTx(b.hash, b.txs[n - 1], n - 1), b.height);
    }
  }

  lemma OneRow(rows: map<BlockTx, nat>, key: BlockTx, height: nat)
    ensures var rows' := InsertOrIgnore(rows, key, height);
      && key in rows' && (forall k :: k in rows' <==> k in rows || k == key)
      && (forall k :: k in rows' ==> rows'[k] == if k in rows then rows[k] else height)
  {
  }

  lemma {:induction false} InsertMissingLists(rows: map<(Hash, TxId), nat>, b: Block, missing: seq<TxId>)
    ensures var rows' := InsertMissing(rows, b, missing);
      && (forall tx :: tx in missing ==> (b.hash, tx) in rows')
      && (forall k :: k in rows ==> k in rows' && rows'[k] == rows[k])
      && (forall k :: k in rows' && k !in rows ==> k.0 == b.hash && k.1 in missing && rows'[k] == b.height)
  {
    if missing != [] {
      InsertMissingLists(rows, b, missing[..|missing| - 1]);
      assert missing == missing[..|missing| - 1] + [missing[|missing| - 1]];
    }
  }

  lemma InsertView(db: Db, b: Block, txs: seq<TxId>, missing: seq<TxId>, now: int)
    requires Sound(db.blocks) && FreshBlock(db, b)
    ensures var db' := InsertBlock(db, b, txs, missing, now);
      && Sound(db'.blocks) && View(db'.blocks) == View(db.blocks)[b.height := b] && b.height !in View(db.blocks)
      && db'.blocks.stableBlocks == db.blocks.stableBlocks
  {
    InsertRefinesSave(db.blocks, b);
    SaveKeepsHashesUnique(View(db.blocks), b);
  }

  lemma InsertOwnsNewRows(db: Db, b: Block, txs: seq<TxId>, missing: seq<TxId>, now: int)
    requires Tracked(db) && FreshBlock(db, b)
    ensures NewRowsOwned(InsertBlock(db, b, txs, missing, now))
  {
    var db' := InsertBlock(db, b, txs, missing, now);
    InsertView(db, b, txs, missing, now);
    InsertBlockTxsStores(db.txs.newBlockTxs, b, |b.txs|);
    forall k | k in db'.txs.newBlockTxs ensures exists h :: OwnRow(db', k, db'.txs.newBlockTxs[k], h) {
      if k in db.txs.newBlockTxs {
        var h :| OwnRow(db, k, db.txs.newBlockTxs[k], h);
        assert OwnRow(db', k, db'.txs.newBlockTxs[k], h);
      } else {
        assert OwnRow(db', k, db'.txs.newBlockTxs[k], b.height);
      }
    }
  }

  lemma InsertOwnsMissing(db: Db, b: Block, txs: seq<TxId>, missing: seq<TxId>, now: int)
    requires Tracked(db) && FreshBlock(db, b) && Splits(b, txs, missing)
    ensures MissingOwned(InsertBlock(db, b, txs, missing, now))
  {
    InsertView(db, b, txs, missing, now);
    InsertMissingLists(db.txs.missing, b, missing);
  }

  lemma InsertKeepsOld(db: Db, b: Block, txs: seq<TxId>, missing: seq<TxId>, now: int, h: nat, i: nat)
    requires Tracked(db) && FreshBlock(db, b) && Listed(db, h, i)
    ensures var db' := InsertBlock(db, b, txs, missing, now); Kept(db', Key(db, h, i), h)
  {
    InsertView(db, b, txs, missing, now);
    UpsertAllStores(db.txs.newTxs, txs, b.height, now);
    InsertBlockTxsStores(db.txs.newBlockTxs, b, |b.txs|);
    InsertMissingLists(db.txs.missing, b, missing);
    var k := Key(db, h, i);
    assert Kept(db, k, h);
    assert k.tx in db.txs.newTxs ==> k.tx in UpsertAll(db.txs.newTxs, txs, b.height, now);
  }

  lemma InsertKeepsNew(db: Db, b: Block, txs: seq<TxId>, missing: seq<TxId>, now: int, i: nat)
    requires Tracked(db) && FreshBlock(db, b) && Splits(b, txs, missing) && i < |b.txs|
    ensures var db' := InsertBlock(db, b, txs, missing, now); Kept(db', BlockTx(b.hash, b.txs[i], i), b.height)
  {
    InsertView(db, b, txs, missing, now);
    UpsertAllStores(db.txs.newTxs, txs, b.height, now);
    InsertBlockTxsStores(db.txs.newBlockTxs, b, |b.txs|);
    InsertMissingLists(db.txs.missing, b, missing);
    assert b.txs[i] in b.txs;
  }

  /** No row of a block that is not indexed is there before its first save. */
  lemma FreshRows(db: Db, b: Block, k: BlockTx)
    requires Tracked(db) && FreshBlock(db, b) && k.block == b.hash
    ensures k !in db.txs.newBlockTxs && k !in db.txs.stableBlockTxs && (k.block, k.tx) !in db.txs.missing
  {
    var ix, stable := View(db.blocks), db.blocks.stableBlocks;
    assert forall h: nat :: h in stable ==> h in ix && ix[h] == stable[h];
  }

  lemma InsertBacks(db: Db, b: Block, txs: seq<TxId>, missing: seq<TxId>, now: int)
    requires Tracked(db) && FreshBlock(db, b) && Splits(b, txs, missing)
    ensures Backed(InsertTxs(db.txs, b, txs, missing, now))
  {
    var t := InsertTxs(db.txs, b, txs, missing, now);
    UpsertAllStores(db.txs.newTxs, txs, b.height, now);
    InsertBlockTxsStores(db.txs.newBlockTxs, b, |b.txs|);
    forall tx | tx in t.newTxs && t.newTxs[tx].height.Some? && tx !in t.stableTxs
      ensures exists k :: RowUpTo(t, k, tx, t.newTxs[tx].height.value)
    {
      if tx in txs {
        assert tx in b.txs;
        var i :| 0 <= i < |b.txs| && b.txs[i] == tx;
        FreshRows(db, b, BlockTx(b.hash, tx, i));
        assert RowUpTo(t, BlockTx(b.hash, tx, i), tx, b.height);
      } else {
        var k :| RowUpTo(db.txs, k, tx, db.txs.newTxs[tx].height.value);
        assert RowUpTo(t, k, tx, t.newTxs[tx].height.value);
      }
    }
  }

  lemma InsertBringsBackLow(db: Db, b: Block, txs: seq<TxId>, missing: seq<TxId>, now: int)
    requires Tracked(db) && FreshBlock(db, b)
    ensures BroughtBackLow(InsertTxs(db.txs, b, txs, missing, now))
  {
    var t := InsertTxs(db.txs, b, txs, missing, now);
    InsertBlockTxsStores(db.txs.newBlockTxs, b, |b.txs|);
    InsertMissingLists(db.txs.missing, b, missing);
    forall k, m | k in t.newBlockTxs && k in t.stableBlockTxs && m in t.missing && m.1 == k.tx && k.tx !in t.stableTxs
      ensures t.newBlockTxs[k] <= t.missing[m]
    {
      OldRowIsLow(db, b, k);
    }
  }

  lemma OldRowIsLow(db: Db, b: Block, k: BlockTx)
    requires Tracked(db) && FreshBlock(db, b) && k in db.txs.stableBlockTxs
    ensures k.block != b.hash
    ensures (k in db.txs.newBlockTxs && k.tx !in db.txs.stableTxs ==> db.txs.newBlockTxs[k] < b.height)
  {
    if k.block == b.hash {
      FreshRows(db, b, k);
    }
    if k in db.txs.newBlockTxs {
      var h: nat :| OwnRow(db, k, db.txs.newBlockTxs[k], h);
      assert h < b.height;
    }
  }

  lemma InsertKeepsTracked(db: Db, b: Block, txs: seq<TxId>, missing: seq<TxId>, now: int)
    requires Tracked(db) && FreshBlock(db, b) && Splits(b, txs, missing)
    ensures Tracked(InsertBlock(db, b, txs, missing, now))
  {
    var db' := InsertBlock(db, b, txs, missing, now);
    InsertView(db, b, txs, missing, now);
    InsertOwnsNewRows(db, b, txs, missing, now);
    InsertOwnsMissing(db, b, txs, missing, now);
    InsertBacks(db, b, txs, missing, now);
    InsertBringsBackLow(db, b, txs, missing, now);
    InsertKeepsAll(db, b, txs, missing, now);
    InsertListsHeights(db, b, txs, missing, now);
  }

  lemma InsertKeepsAll(db: Db, b: Block, txs: seq<TxId>, missing: seq<TxId>, now: int)
    requires Tracked(db) && FreshBlock(db, b) && Splits(b, txs, missing)
    ensures AllKept(InsertBlock(db, b, txs, missing, now))
  {
    var db' := InsertBlock(db, b, txs, missing, now);
    InsertView(db, b, txs, missing, now);
    forall h: nat, i: nat | Listed(db', h, i) ensures Kept(db', Key(db', h, i), h) {
      if h == b.height {
        InsertKeepsNew(db, b, txs, missing, now, i);
      } else {
        InsertKeepsOld(db, b, txs, missing, now, h, i);
      }
    }
  }

  lemma InsertListsHeights(db: Db, b: Block, txs: seq<TxId>, missing: seq<TxId>, now: int)
    requires Tracked(db) && FreshBlock(db, b) && Splits(b, txs, missing)
    ensures HeightsListed(InsertBlock(db, b, txs, missing, now))
  {
    InsertView(db, b, txs, missing, now);
    UpsertAllStores(db.txs.newTxs, txs, b.height, now);
  }

  lemma InsertKeepsDated(db: Db, b: Block, txs: seq<TxId>, missing: seq<TxId>, now: int)
    requires Tracked(db) && Dated(db) && FreshBlock(db, b) && Splits(b, txs, missing)
    ensures Dated(InsertBlock(db, b, txs, missing, now))
  {
    var db' := InsertBlock(db, b, txs, missing, now);
    InsertView(db, b, txs, missing, now);
    UpsertAllStores(db.txs.newTxs, txs, b.height, now);
    InsertMissingLists(db.txs.missing, b, missing);
    forall h: nat, i: nat | Listed(db', h, i) && OnlyNew(db'.txs, Key(db', h, i))
      ensures db'.txs.newTxs[Key(db', h, i).tx].height.Some?
    {
      var k := Key(db', h, i);
      if h == b.height {
        assert k.tx in b.txs;
      } else if k.tx !in txs {
        assert Listed(db, h, i) && Key(db, h, i) == k && OnlyNew(db.txs, k);
      }
    }
  }

  // ---------------------------------------------------------------- a transaction arriving late

  /** The row that the lowest missing height of a transaction belongs to is there, or was brought back no higher. */
  lemma LateRow(db: Db, tx: TxId, height: nat, now: int)
    requires Tracked(db) && MissingHeight(db.txs, tx, Some(height)) && tx !in db.txs.stableTxs
    ensures exists k :: RowUpTo(SaveTx(db, tx, Some(height), now).txs, k, tx, height)
  {
    var t := SaveTx(db, tx, Some(height), now).txs;
    var m :| m in db.txs.missing && m.1 == tx && db.txs.missing[m] == height;
    var ix := View(db.blocks);
    assert height in ix && tx in ix[height].txs;
    var i :| 0 <= i < |ix[height].txs| && ix[height].txs[i] == tx;
    assert Listed(db, height, i);
    OwnHeight(db, height, i);
    var k := Key(db, height, i);
    assert Kept(db, k, height);
    assert RowUpTo(t, k, tx, height);
  }

  lemma SaveTxOwnsNewRows(db: Db, tx: TxId, height: Option<nat>, now: int)
    requires Tracked(db) && MissingHeight(db.txs, tx, height)
    ensures NewRowsOwned(SaveTx(db, tx, height, now))
  {
    var db' := SaveTx(db, tx, height, now);
    forall k | k in db'.txs.newBlockTxs ensures exists h :: OwnRow(db', k, db'.txs.newBlockTxs[k], h) {
      if k in db.txs.newBlockTxs {
        var h :| OwnRow(db, k, db.txs.newBlockTxs[k], h);
        assert OwnRow(db', k, db'.txs.newBlockTxs[k], h);
      } else {
        var h := BroughtBackRow(db, k);
        assert OwnRow(db', k, height.value, h);
      }
    }
  }

  /** A stable row of a transaction that is not stable belongs to a block it is missing for. */
  lemma BroughtBackRow(db: Db, k: BlockTx) returns (h: nat)
    requires Tracked(db) && k in db.txs.stableBlockTxs
    ensures IsBlockTx(View(db.blocks), k, h) && h in db.blocks.stableBlocks
    ensures k.tx !in db.txs.stableTxs ==> (k.block, k.tx) in db.txs.missing && db.txs.missing[(k.block, k.tx)] == h
  {
    h :| IsBlockTx(db.blocks.stableBlocks, k, h);
    assert h in View(db.blocks) && View(db.blocks)[h] == db.blocks.stableBlocks[h];
    assert Listed(db, h, k.index) && Key(db, h, k.index) == k;
    assert Kept(db, k, h);
    OwnHeight(db, h, k.index);
  }

  lemma SaveTxBacks(db: Db, tx: TxId, height: Option<nat>, now: int)
    requires Tracked(db) && MissingHeight(db.txs, tx, height)
    ensures Backed(SaveTx(db, tx, height, now).txs)
  {
    var t, t' := db.txs, SaveTx(db, tx, height, now).txs;
    forall x | x in t'.newTxs && t'.newTxs[x].height.Some? && x !in t'.stableTxs
      ensures exists k :: RowUpTo(t', k, x, t'.newTxs[x].height.value)
    {
      if x == tx && height.Some? {
        LateRow(db, tx, height.value, now);
      } else {
        var k :| RowUpTo(t, k, x, t.newTxs[x].height.value);
        assert RowUpTo(t', k, x, t'.newTxs[x].height.value);
      }
    }
  }

  lemma SaveTxBringsBackLow(db: Db, tx: TxId, height: Option<nat>, now: int)
    requires Tracked(db) && MissingHeight(db.txs, tx, height)
    ensures BroughtBackLow(SaveTx(db, tx, height, now).txs)
  {
  }

  lemma SaveTxKeeps(db: Db, tx: TxId, height: Option<nat>, now: int, h: nat, i: nat)
    requires Tracked(db) && MissingHeight(db.txs, tx, height) && Listed(db, h, i)
    ensures Kept(SaveTx(db, tx, height, now), Key(db, h, i), h)
  {
    assert Kept(db, Key(db, h, i), h);
    OwnHeight(db, h, i);
  }

  lemma SaveTxKeepsTracked(db: Db, tx: TxId, height: Option<nat>, now: int)
    requires Tracked(db) && MissingHeight(db.txs, tx, height)
    ensures Tracked(SaveTx(db, tx, height, now))
  {
    var db' := SaveTx(db, tx, height, now);
    SaveTxOwnsNewRows(db, tx, height, now);
    SaveTxBacks(db, tx, height, now);
    SaveTxBringsBackLow(db, tx, height, now);
    forall h: nat, i: nat | Listed(db', h, i) ensures Kept(db', Key(db', h, i), h) {
      SaveTxKeeps(db, tx, height, now, h, i);
    }
  }

  lemma SaveTxKeepsDated(db: Db, tx: TxId, height: Option<nat>, now: int)
    requires Tracked(db) && Dated(db) && MissingHeight(db.txs, tx, height)
    ensures Dated(SaveTx(db, tx, height, now))
  {
    var db' := SaveTx(db, tx, height, now);
    forall h: nat, i: nat | Listed(db', h, i) && OnlyNew(db'.txs, Key(db', h, i))
      ensures db'.txs.newTxs[Key(db', h, i).tx].height.Some?
    {
      assert Kept(db, Key(db, h, i), h);
      assert Key(db', h, i) == Key(db, h, i);
    }
  }

  // ---------------------------------------------------------------- whole runs

  datatype Op =
    | SaveBlockOp(b: Block, txs: seq<TxId>, missing: seq<TxId>, now: int, indexedBefore: int)
    | ResetOp(r: int)
    | SaveTxOp(tx: TxId, height: Option<nat>, now: int)

  ghost function Perform(db: Db, op: Op): Db {
    match op
    case SaveBlockOp(b, txs, missing, now, indexedBefore) => SaveBlockAndTxs(db, b, txs, missing, now, indexedBefore)
    case ResetOp(r) => ResetToHeight(db, r)
    case SaveTxOp(tx, height, now) => SaveTx(db, tx, height, now)
  }

  /** Saves on top, resets in the new tier, heights read from the table, as `ImporterOps` proves of the importer. */
  ghost predicate Enabled(db: Db, op: Op) {
    match op
    case SaveBlockOp(b, txs, missing, _, _) => FreshBlock(db, b) && Splits(b, txs, missing)
    case ResetOp(r) => AboveAllStable(db, r)
    case SaveTxOp(tx, height, _) => MissingHeight(db.txs, tx, height)
  }

  /** The operation flushes, and the flush sweeps a listed transaction. */
  ghost predicate OpSweeps(db: Db, op: Op) {
    op.SaveBlockOp? && op.b.height % STABLE_FLUSH_INTERVAL == 0
    && !FlushSafe(InsertBlock(db, op.b, op.txs, op.missing, op.now), op.b.height - MAX_FORK_DEPTH, op.indexedBefore)
  }

  const EMPTY_DB := Db(Tables(map[], map[]), Txs(map[], {}, map[], {}, map[]))

  ghost function After(ops: seq<Op>): Db {
    if ops == [] then EMPTY_DB else Perform(After(ops[..|ops| - 1]), ops[|ops| - 1])
  }

  /** The state after the first `k` operations. */
  ghost function StateAt(ops: seq<Op>, k: nat): Db
    requires k <= |ops|
  {
    After(ops[..k])
  }

  ghost predicate AllEnabled(ops: seq<Op>) {
    forall k: nat :: k < |ops| ==> Enabled(StateAt(ops, k), ops[k])
  }

  lemma StateStep(ops: seq<Op>, k: nat)
    requires k < |ops|
    ensures StateAt(ops, k + 1) == Perform(StateAt(ops, k), ops[k])
  {
    assert ops[..k + 1][..k] == ops[..k];
  }

  lemma EmptyIsTracked()
    ensures Tracked(EMPTY_DB) && Dated(EMPTY_DB)
  {
  }

  lemma StepKeepsTracked(db: Db, op: Op)
    requires Tracked(db) && Enabled(db, op) && !OpSweeps(db, op)
    ensures Tracked(Perform(db, op))
  {
    match op
    case SaveBlockOp(b, txs, missing, now, indexedBefore) =>
      InsertKeepsTracked(db, b, txs, missing, now);
      if b.height % STABLE_FLUSH_INTERVAL == 0 {
        FlushKeepsTracked(InsertBlock(db, b, txs, missing, now), b.height - MAX_FORK_DEPTH, indexedBefore);
      }
    case ResetOp(r) => ResetKeepsTracked(db, r);
    case SaveTxOp(tx, height, now) => SaveTxKeepsTracked(db, tx, height, now);
  }

  lemma StepLoses(db: Db, op: Op)
    requires Tracked(db) && Enabled(db, op) && OpSweeps(db, op)
    ensures !NothingLost(Perform(db, op))
  {
    var inserted := InsertBlock(db, op.b, op.txs, op.missing, op.now);
    InsertKeepsTracked(db, op.b, op.txs, op.missing, op.now);
    FlushLosesExactly(inserted, op.b.height - MAX_FORK_DEPTH, op.indexedBefore);
  }

  lemma {:induction false} RunIsTracked(ops: seq<Op>, k: nat)
    requires AllEnabled(ops) && k <= |ops| && forall j: nat :: j < k ==> !OpSweeps(StateAt(ops, j), ops[j])
    ensures Tracked(StateAt(ops, k))
  {
    if k == 0 {
      EmptyIsTracked();
    } else {
      RunIsTracked(ops, k - 1);
      StateStep(ops, k - 1);
      StepKeepsTracked(StateAt(ops, k - 1), ops[k - 1]);
    }
  }

  lemma LosslessStep(db: Db, op: Op)
    requires Tracked(db) && Enabled(db, op) && NothingLost(Perform(db, op))
    ensures !OpSweeps(db, op)
  {
    if OpSweeps(db, op) {
      StepLoses(db, op);
    }
  }

  lemma {:induction false} LosslessRunIsTracked(ops: seq<Op>, k: nat)
    requires AllEnabled(ops) && k <= |ops| && forall j: nat :: j <= |ops| ==> NothingLost(StateAt(ops, j))
    ensures Tracked(StateAt(ops, k))
  {
    if k == 0 {
      EmptyIsTracked();
    } else {
      LosslessRunIsTracked(ops, k - 1);
      StateStep(ops, k - 1);
      LosslessStep(StateAt(ops, k - 1), ops[k - 1]);
      StepKeepsTracked(StateAt(ops, k - 1), ops[k - 1]);
    }
  }

  /**
   For every run of saves, late transactions and resets from the empty database, whoever shares a transaction: nothing
   is ever lost exactly when no flush sweeps a listed transaction.
   */
  lemma RunLosesExactly(ops: seq<Op>)
    requires AllEnabled(ops)
    ensures (forall k: nat :: k <= |ops| ==> NothingLost(StateAt(ops, k)))
      <==> (forall k: nat :: k < |ops| ==> !OpSweeps(StateAt(ops, k), ops[k]))
  {
    if forall k: nat :: k < |ops| ==> !OpSweeps(StateAt(ops, k), ops[k]) {
      forall k: nat | k <= |ops| ensures NothingLost(StateAt(ops, k)) {
        RunIsTracked(ops, k);
        TrackedLosesNothing(StateAt(ops, k));
      }
    }
    if forall k: nat :: k <= |ops| ==> NothingLost(StateAt(ops, k)) {
      forall k: nat | k < |ops| ensures !OpSweeps(StateAt(ops, k), ops[k]) {
        LosslessRunIsTracked(ops, k);
        StateStep(ops, k);
        LosslessStep(StateAt(ops, k), ops[k]);
      }
    }
  }

  /** Each reset of the run clears no height that a retained block needs. */
  ghost predicate ResetsSafe(ops: seq<Op>) {
    forall k: nat :: k < |ops| && ops[k].ResetOp? ==> ResetSafe(StateAt(ops, k), ops[k].r)
  }

  lemma StepKeepsDated(db: Db, op: Op)
    requires Tracked(db) && Dated(db) && Enabled(db, op) && (op.ResetOp? ==> ResetSafe(db, op.r))
    ensures !OpSweeps(db, op) && Dated(Perform(db, op))
  {
    match op
    case SaveBlockOp(b, txs, missing, now, indexedBefore) =>
      var inserted := InsertBlock(db, b, txs, missing, now);
      InsertKeepsTracked(db, b, txs, missing, now);
      InsertKeepsDated(db, b, txs, missing, now);
      DatedIsSafe(inserted, b.height - MAX_FORK_DEPTH, indexedBefore);
      FlushKeepsDated(inserted, b.height - MAX_FORK_DEPTH, indexedBefore);
    case ResetOp(r) => ResetKeepsDated(db, r);
    case SaveTxOp(tx, height, now) => SaveTxKeepsDated(db, tx, height, now);
  }

  lemma StepStays(db: Db, op: Op)
    requires Tracked(db) && Dated(db) && Enabled(db, op) && (op.ResetOp? ==> ResetSafe(db, op.r))
    ensures !OpSweeps(db, op) && Tracked(Perform(db, op)) && Dated(Perform(db, op))
  {
    StepKeepsDated(db, op);
    StepKeepsTracked(db, op);
  }

  lemma {:induction false} RunIsDated(ops: seq<Op>, k: nat)
    requires AllEnabled(ops) && ResetsSafe(ops) && k <= |ops|
    ensures Tracked(StateAt(ops, k)) && Dated(StateAt(ops, k))
  {
    if k == 0 {
      EmptyIsTracked();
    } else {
      RunIsDated(ops, k - 1);
      StateStep(ops, k - 1);
      StepStays(StateAt(ops, k - 1), ops[k - 1]);
    }
  }

  /**
   In every state reached by saving blocks, saving late transactions, resetting safely and flushing, each transaction of
   each indexed block is stored or listed as missing. A run without resets needs no condition.
   */
  lemma NothingIsEverLost(ops: seq<Op>)
    requires AllEnabled(ops) && ResetsSafe(ops)
    ensures forall k: nat :: k <= |ops| ==> NothingLost(StateAt(ops, k))
  {
    forall k: nat | k <= |ops| ensures NothingLost(StateAt(ops, k)) {
      RunIsDated(ops, k);
      TrackedLosesNothing(StateAt(ops, k));
    }
  }

  /** No two indexed blocks list the same transaction. */
  ghost predicate NothingShared(ix: Index) {
    forall g, h, tx :: g in ix && h in ix && tx in ix[g].txs && tx in ix[h].txs ==> g == h
  }

  lemma UnsharedIsSafe(db: Db, r: int)
    requires Tracked(db) && NothingShared(View(db.blocks))
    ensures ResetSafe(db, r)
  {
    forall h: nat, i: nat ensures !Clears(db, r, h, i) {
      if Clears(db, r, h, i) {
        OnlySharingIsUnsafe(db, r, h, i);
      }
    }
  }

  ghost predicate NeverShared(ops: seq<Op>) {
    forall k: nat :: k <= |ops| ==> NothingShared(View(StateAt(ops, k).blocks))
  }

  lemma UnsharedStep(db: Db, op: Op)
    requires Tracked(db) && Dated(db) && Enabled(db, op) && NothingShared(View(db.blocks))
    ensures Tracked(Perform(db, op)) && Dated(Perform(db, op)) && (op.ResetOp? ==> ResetSafe(db, op.r))
  {
    if op.ResetOp? {
      UnsharedIsSafe(db, op.r);
    }
    StepStays(db, op);
  }

  lemma {:induction false} UnsharedRunIsDated(ops: seq<Op>, k: nat)
    requires AllEnabled(ops) && NeverShared(ops) && k <= |ops|
    ensures Tracked(StateAt(ops, k)) && Dated(StateAt(ops, k))
  {
    if k == 0 {
      EmptyIsTracked();
    } else {
      UnsharedRunIsDated(ops, k - 1);
      StateStep(ops, k - 1);
      UnsharedStep(StateAt(ops, k - 1), ops[k - 1]);
    }
  }

  /** While no transaction is listed by two indexed blocks every reset is safe, so nothing is ever lost. */
  lemma UnsharedRunsAreSafe(ops: seq<Op>)
    requires AllEnabled(ops) && NeverShared(ops)
    ensures ResetsSafe(ops)
  {
    forall k: nat | k < |ops| && ops[k].ResetOp? ensures ResetSafe(StateAt(ops, k), ops[k].r) {
      UnsharedRunIsDated(ops, k);
      UnsharedStep(StateAt(ops, k), ops[k]);
    }
  }
}
