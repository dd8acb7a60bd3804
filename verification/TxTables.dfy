/**
 The transaction side of the core database: which transactions of a block are stored, in the new or
 the stable tier, and which are listed as missing.
 */
module TxTables {
  import opened Options
  import opened Chain
  import opened BlockTables

  datatype BlockTx = BlockTx(block: Hash, tx: TxId, index: nat)
  datatype NewTx = NewTx(height: Option<nat>, indexedAt: int)

  datatype Txs = Txs(
    newBlockTxs: map<BlockTx, nat>,     // `new_block_transactions`, with its height column
    stableBlockTxs: set<BlockTx>,
    newTxs: map<TxId, NewTx>,
    stableTxs: set<TxId>,
    missing: map<(Hash, TxId), nat>)    // `missing_transactions`, with its height column

  datatype Db = Db(blocks: Tables, txs: Txs)

  /** `upsertNewTransaction`: a known height is never overwritten with NULL. */
  function Upsert(rows: map<TxId, NewTx>, tx: TxId, height: Option<nat>, now: int): map<TxId, NewTx> {
    if tx in rows then rows[tx := rows[tx].(height := if height.Some? then height else rows[tx].height)]
    else rows[tx := NewTx(height, now)]
  }

  function UpsertAll(rows: map<TxId, NewTx>, txs: seq<TxId>, height: nat, now: int): map<TxId, NewTx> {
    if txs == [] then rows
    else Upsert(UpsertAll(rows, txs[..|txs| - 1], height, now), txs[|txs| - 1], Some(height), now)
  }

  /** Insert-or-ignore: a row already there stays. */
  function InsertOrIgnore<K>(rows: map<K, nat>, k: K, height: nat): map<K, nat> {
    if k in rows then rows else rows[k := height]
  }

  /** The first `n` rows of `b` in `new_block_transactions`. */
  function InsertBlockTxs(rows: map<BlockTx, nat>, b: Block, n: nat): map<BlockTx, nat>
    requires n <= |b.txs|
  {
    if n == 0 then rows
    else InsertOrIgnore(InsertBlockTxs(rows, b, n - 1), BlockTx(b.hash, b.txs[n - 1], n - 1), b.height)
  }

  /** A row in `missing_transactions` for each missing ID. */
  function InsertMissing(rows: map<(Hash, TxId), nat>, b: Block, missing: seq<TxId>): map<(Hash, TxId), nat> {
    if missing == [] then rows
    else InsertOrIgnore(InsertMissing(rows, b, missing[..|missing| - 1]), (b.hash, missing[|missing| - 1]), b.height)
  }

  function InsertTxs(t: Txs, b: Block, txs: seq<TxId>, missing: seq<TxId>, now: int): Txs {
    t.(newBlockTxs := InsertBlockTxs(t.newBlockTxs, b, |b.txs|),
       newTxs := UpsertAll(t.newTxs, txs, b.height, now),
       missing := InsertMissing(t.missing, b, missing))
  }

  /** New transactions joined with a block row below `end`. */
  function FlushedTxs(t: Txs, end: int): set<TxId> {
    set k | k in t.newBlockTxs && t.newBlockTxs[k] < end && k.tx in t.newTxs :: k.tx
  }

  predicate Stale(row: NewTx, threshold: int, indexedBefore: int) {
    match row.height
    case Some(h) => h < threshold
    case None => row.indexedAt < indexedBefore
  }

  /** Copy to the stable tier, then delete stale rows. */
  function FlushTxs(t: Txs, end: int, indexedBefore: int): Txs {
    var stable := t.stableTxs + FlushedTxs(t, end);
    Txs(
      map k | k in t.newBlockTxs && t.newBlockTxs[k] >= end :: t.newBlockTxs[k],
      t.stableBlockTxs + (set k | k in t.newBlockTxs && t.newBlockTxs[k] < end),
      map tx | tx in t.newTxs && !Stale(t.newTxs[tx], end, indexedBefore) :: t.newTxs[tx],
      stable,
      map k | k in t.missing && !(t.missing[k] < end && k.1 in stable) :: t.missing[k])
  }

  /** `insertBlockAndTxsFn`. */
  function InsertBlock(db: Db, b: Block, txs: seq<TxId>, missing: seq<TxId>, now: int): Db {
    Db(InsertNewBlock(db.blocks, b), InsertTxs(db.txs, b, txs, missing, now))
  }

  /** `saveCoreStableDataFn`, then `deleteCoreStaleNewDataFn`. */
  function FlushDb(db: Db, end: int, indexedBefore: int): Db {
    Db(Flush(db.blocks, end), FlushTxs(db.txs, end, indexedBefore))
  }

  /** The flush on every fifth height. */
  function FlushDbAfter(db: Db, height: nat, indexedBefore: int): Db {
    if height % STABLE_FLUSH_INTERVAL == 0 then FlushDb(db, height - MAX_FORK_DEPTH, indexedBefore) else db
  }

  function SaveBlockAndTxs(db: Db, b: Block, txs: seq<TxId>, missing: seq<TxId>, now: int, indexedBefore: int): Db {
    FlushDbAfter(InsertBlock(db, b, txs, missing, now), b.height, indexedBefore)
  }

  function ClearHeight(row: NewTx, r: int): NewTx {
    if row.height.Some? && row.height.value > r then row.(height := None) else row
  }

  function ResetTxs(t: Txs, r: int): Txs {
    t.(newTxs := map tx | tx in t.newTxs :: ClearHeight(t.newTxs[tx], r),
       newBlockTxs := map k | k in t.newBlockTxs && t.newBlockTxs[k] <= r :: t.newBlockTxs[k],
       missing := map k | k in t.missing && t.missing[k] <= r :: t.missing[k])
  }

  function ResetToHeight(db: Db, r: int): Db {
    Db(Reset(db.blocks, r), ResetTxs(db.txs, r))
  }

  /** The answer of `selectMissingTransactionHeight`: the lowest height of the rows for `tx`, if there are any. */
  predicate MissingHeight(t: Txs, tx: TxId, height: Option<nat>) {
    match height
    case Some(h) =>
      && (exists k :: k in t.missing && k.1 == tx && t.missing[k] == h)
      && (forall k :: k in t.missing && k.1 == tx ==> h <= t.missing[k])
    case None => forall k :: k in t.missing ==> k.1 != tx
  }

  /** Insert-or-ignore of one row for each of `keys`, all at one height. */
  ghost function AddRows(rows: map<BlockTx, nat>, keys: set<BlockTx>, height: nat): (r: map<BlockTx, nat>)
    ensures forall k :: k in r <==> k in rows || k in keys
    ensures forall k :: k in r ==> r[k] == if k in rows then rows[k] else height
    decreases |keys|
  {
    if keys == {} then rows
    else
      var k :| k in keys;
      InsertOrIgnore(AddRows(rows, keys - {k}, height), k, height)
  }

  /** Above the stable tier by more than one block; with no stable block SQL's comparison with NULL holds of nothing. */
  predicate AboveStable(t: Tables, height: nat) {
    t.stableBlocks != map[] && forall h :: h in t.stableBlocks ==> height > h + 1
  }

  /** The stable rows of a transaction, which `insertAsyncNewBlockTransaction` brings back for the next flush. */
  function StableRows(t: Txs, tx: TxId): set<BlockTx> {
    set k | k in t.stableBlockTxs && k.tx == tx
  }

  /**
   A transaction arriving after its block: stored at the height it was missed at, and unlisted if that is still new.
   */
  ghost function SaveTx(db: Db, tx: TxId, height: Option<nat>, now: int): Db {
    var t := db.txs;
    var rows := if height.None? then t.newBlockTxs else AddRows(t.newBlockTxs, StableRows(t, tx), height.value);
    db.(txs := t.(newTxs := Upsert(t.newTxs, tx, height, now),
                  newBlockTxs := rows,
                  missing := map k | k in t.missing && !(k.1 == tx && AboveStable(db.blocks, t.missing[k])) ::
                    t.missing[k]))
  }

  // ---------------------------------------------------------------- the cut-off for rows without a height

  const NEW_TX_CLEANUP_WAIT_SECS: int := 60 * 60 * 2

  /** The newest timestamp, 0 when there is no row. */
  ghost predicate IsMaxTimestamp(rows: map<nat, Block>, m: nat) {
    (forall h :: h in rows ==> rows[h].timestamp <= m) && (m == 0 || exists h :: h in rows && rows[h].timestamp == m)
  }

  /** `selectMaxStableBlockTimestamp`. */
  ghost function MaxTimestamp(rows: map<nat, Block>): (m: nat)
    ensures IsMaxTimestamp(rows, m)
    decreases |rows|
  {
    if rows == map[] then 0 else
      var h :| h in rows;
      var rest := map g | g in rows && g != h :: rows[g];
      assert rest.Keys == rows.Keys - {h};
      assert forall g :: g in rows ==> g == h || g in rest;
      var m := MaxTimestamp(rest);
      if m < rows[h].timestamp then rows[h].timestamp else m
  }

  /** What the worker passes to the flush of the save it is about to make. */
  ghost function CutOff(db: Db): int {
    MaxTimestamp(db.blocks.stableBlocks) - NEW_TX_CLEANUP_WAIT_SECS
  }
}
