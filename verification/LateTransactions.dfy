/**
 Transactions that arrive after their block: what one such save changes, and that over any later operations the
 transaction stays unlisted above the stable tier, and stored, until another save lists it again.
 */
module LateTransactions {
  import opened Options
  import opened Chain
  import opened ForkWalk
  import opened BlockTables
  import opened TxTables
  import opened TxConservation

  // ---------------------------------------------------------------- one save

  /** The stable tier keeps listing what is missing at most one block above it, and everything while it is empty. */
  ghost predicate StaysListed(stable: Index, height: nat) {
    stable == map[] || height <= MaxHeight(stable) + 1
  }

  /** A late transaction is unlisted exactly where it is missing more than one block above the stable tier. */
  lemma SaveTxUnlistsExactly(db: Db, tx: TxId, height: Option<nat>, now: int)
    ensures var t, t' := db.txs, SaveTx(db, tx, height, now).txs;
      && (forall m :: m in t'.missing <==>
            m in t.missing && (m.1 != tx || StaysListed(db.blocks.stableBlocks, t.missing[m])))
      && (forall m :: m in t'.missing ==> t'.missing[m] == t.missing[m])
  {
    var stable := db.blocks.stableBlocks;
    forall g: nat ensures AboveStable(db.blocks, g) <==> !StaysListed(stable, g) {
      if stable != map[] {
        assert MaxHeight(stable) in stable;
      }
    }
  }

  /** It is stored, at the height it was missing at if there is one, and nothing else is. */
  lemma SaveTxStores(db: Db, tx: TxId, height: Option<nat>, now: int)
    ensures var t, t' := db.txs, SaveTx(db, tx, height, now).txs;
      && t'.newTxs.Keys == t.newTxs.Keys + {tx}
      && (height.Some? ==> t'.newTxs[tx].height == height)
      && (height.None? && tx in t.newTxs ==> t'.newTxs[tx] == t.newTxs[tx])
      && t'.newTxs[tx].indexedAt == (if tx in t.newTxs then t.newTxs[tx].indexedAt else now)
      && (forall x :: x in t.newTxs && x != tx ==> t'.newTxs[x] == t.newTxs[x])
      && t'.stableTxs == t.stableTxs && t'.stableBlockTxs == t.stableBlockTxs
  {
  }

  /** Its stable rows come back at that height, so that the next flush copies it; every other row stays. */
  lemma SaveTxBringsBack(db: Db, tx: TxId, height: Option<nat>, now: int)
    ensures var t, t' := db.txs, SaveTx(db, tx, height, now).txs;
      && (forall k :: k in t'.newBlockTxs <==>
            k in t.newBlockTxs || (height.Some? && k in t.stableBlockTxs && k.tx == tx))
      && (forall k :: k in t'.newBlockTxs ==>
            t'.newBlockTxs[k] == if k in t.newBlockTxs then t.newBlockTxs[k] else height.value)
  {
  }

  /** So the next flush above that height makes it stable, although its block was flushed before it came. */
  lemma NextFlushMakesItStable(db: Db, tx: TxId, height: nat, now: int, end: int, indexedBefore: int, k: BlockTx)
    requires k in db.txs.stableBlockTxs && k.tx == tx && k !in db.txs.newBlockTxs && height < end
    ensures tx in FlushDb(SaveTx(db, tx, Some(height), now), end, indexedBefore).txs.stableTxs
  {
    SaveTxBringsBack(db, tx, Some(height), now);
    assert k in SaveTx(db, tx, Some(height), now).txs.newBlockTxs;
  }

  // ---------------------------------------------------------------- whole runs

  /** The operation lists the transaction as missing. */
  predicate Lists(op: Op, tx: TxId) {
    op.SaveBlockOp? && tx in op.missing
  }

  /** The operations `j+1..k-1` do not list the transaction. */
  predicate NotRelisted(ops: seq<Op>, tx: TxId, j: nat, k: nat)
    requires k <= |ops|
  {
    forall i :: j < i < k ==> !Lists(ops[i], tx)
  }

  /** An operation that does not list a transaction adds no missing row for it, and moves none. */
  lemma MissingOnlyShrinks(db: Db, op: Op, tx: TxId)
    requires !Lists(op, tx)
    ensures var missing, missing' := db.txs.missing, Perform(db, op).txs.missing;
      forall m :: m in missing' && m.1 == tx ==> m in missing && missing'[m] == missing[m]
  {
    match op
    case SaveBlockOp(b, _, missing, _, _) => InsertMissingLists(db.txs.missing, b, missing);
    case ResetOp(_) =>
    case SaveTxOp(_, _, _) =>
  }

  /** The transaction is listed as missing nowhere more than one block above `stable`. */
  ghost predicate Unlisted(db: Db, tx: TxId, stable: Index) {
    forall m :: m in db.txs.missing && m.1 == tx ==> StaysListed(stable, db.txs.missing[m])
  }

  lemma LateSaveUnlists(db: Db, op: Op)
    requires op.SaveTxOp?
    ensures Unlisted(Perform(db, op), op.tx, db.blocks.stableBlocks)
  {
    SaveTxUnlistsExactly(db, op.tx, op.height, op.now);
  }

  lemma OthersKeepUnlisted(db: Db, op: Op, tx: TxId, stable: Index)
    requires Unlisted(db, tx, stable) && !Lists(op, tx)
    ensures Unlisted(Perform(db, op), tx, stable)
  {
    MissingOnlyShrinks(db, op, tx);
  }

  lemma {:induction false} StaysUnlisted(ops: seq<Op>, tx: TxId, stable: Index, from: nat, k: nat)
    requires from <= k <= |ops| && Unlisted(StateAt(ops, from), tx, stable)
    requires forall i :: from <= i < k ==> !Lists(ops[i], tx)
    ensures Unlisted(StateAt(ops, k), tx, stable)
    decreases k
  {
    if from < k {
      StaysUnlisted(ops, tx, stable, from, k - 1);
      StateStep(ops, k - 1);
      OthersKeepUnlisted(StateAt(ops, k - 1), ops[k - 1], tx, stable);
    }
  }

  /**
   Once a late transaction is saved it is listed as missing nowhere more than one block above the stable tier of that
   moment, until another save lists it.
   */
  lemma UnlistedUntilRelisted(ops: seq<Op>, j: nat, k: nat)
    requires j < k <= |ops| && ops[j].SaveTxOp? && NotRelisted(ops, ops[j].tx, j, k)
    ensures Unlisted(StateAt(ops, k), ops[j].tx, StateAt(ops, j).blocks.stableBlocks)
  {
    StateStep(ops, j);
    LateSaveUnlists(StateAt(ops, j), ops[j]);
    StaysUnlisted(ops, ops[j].tx, StateAt(ops, j).blocks.stableBlocks, j + 1, k);
  }

  /**
   And while a block above that line lists it, it is stored, in every run whose resets are safe.
   */
  lemma LateTransactionStaysStored(ops: seq<Op>, j: nat, k: nat, h: nat, i: nat)
    requires AllEnabled(ops) && ResetsSafe(ops)
    requires j < k <= |ops| && ops[j].SaveTxOp? && NotRelisted(ops, ops[j].tx, j, k)
    requires Listed(StateAt(ops, k), h, i) && Key(StateAt(ops, k), h, i).tx == ops[j].tx
    requires !StaysListed(StateAt(ops, j).blocks.stableBlocks, h)
    ensures ops[j].tx in StateAt(ops, k).txs.newTxs || ops[j].tx in StateAt(ops, k).txs.stableTxs
    ensures (Key(StateAt(ops, k), h, i).block, ops[j].tx) !in StateAt(ops, k).txs.missing
  {
    RunIsDated(ops, k);
    NothingIsEverLost(ops);
    OwnHeight(StateAt(ops, k), h, i);
    UnlistedUntilRelisted(ops, j, k);
    assert Stored(StateAt(ops, k).txs, Key(StateAt(ops, k), h, i));
  }
}
