/** Fetching a block's transactions: each is pushed where it belongs as its request completes. */
module BlockFetch {
  import opened Chain
  import TxConservation

  /** One completed request. */
  datatype Completion = Completion(txId: TxId, found: bool)

  function Ids(completions: seq<Completion>, found: bool): seq<TxId> {
    if completions == [] then []
    else
      var last := completions[|completions| - 1];
      Ids(completions[..|completions| - 1], found) + if last.found == found then [last.txId] else []
  }

  function AllIds(completions: seq<Completion>): (r: seq<TxId>)
    ensures |r| == |completions| && forall i :: 0 <= i < |r| ==> r[i] == completions[i].txId
  {
    if completions == [] then [] else AllIds(completions[..|completions| - 1]) + [completions[|completions| - 1].txId]
  }

  /** The two lists together hold each completed request once. */
  lemma {:induction false} IdsSplit(completions: seq<Completion>)
    ensures multiset(Ids(completions, true)) + multiset(Ids(completions, false)) == multiset(AllIds(completions))
  {
    if completions != [] {
      IdsSplit(completions[..|completions| - 1]);
    }
  }

  /** Each request ends up in the list of its outcome. */
  lemma {:induction false} IdsByOutcome(completions: seq<Completion>, found: bool)
    ensures forall id :: id in Ids(completions, found) <==> Completion(id, found) in completions
  {
    if completions != [] {
      var init, last := completions[..|completions| - 1], completions[|completions| - 1];
      IdsByOutcome(init, found);
      assert completions == init + [last];
    }
  }

  /** For any order of completion, the block's transaction list is split exactly into fetched and missing. */
  method GetBlockAndTxs(block: Block, completions: seq<Completion>) returns (r: Fetched)
    requires multiset(AllIds(completions)) == multiset(block.txs)
    ensures r.block == block && r.txs == Ids(completions, true) && r.missing == Ids(completions, false)
    ensures forall id :: id in r.txs <==> Completion(id, true) in completions
    ensures forall id :: id in r.missing <==> Completion(id, false) in completions
    ensures multiset(r.txs) + multiset(r.missing) == multiset(block.txs)
    ensures TxConservation.Splits(block, r.txs, r.missing)
  {
    var txs, missingTxIds := [], [];
    for i := 0 to |completions|
      invariant txs == Ids(completions[..i], true) && missingTxIds == Ids(completions[..i], false)
    {
      assert completions[..i + 1][..i] == completions[..i];
      if completions[i].found {
        txs := txs + [completions[i].txId];
      } else {
        missingTxIds := missingTxIds + [completions[i].txId];
      }
    }
    assert completions[..|completions|] == completions;
    IdsSplit(completions);
    IdsByOutcome(completions, true);
    IdsByOutcome(completions, false);
    SplitsAsSets(block, txs, missingTxIds);
    r := Fetched(block, txs, missingTxIds);
  }

  lemma SplitsAsSets(block: Block, txs: seq<TxId>, missing: seq<TxId>)
    requires multiset(txs) + multiset(missing) == multiset(block.txs)
    ensures TxConservation.Splits(block, txs, missing)
  {
    forall tx ensures tx in block.txs <==> tx in txs || tx in missing {
      assert tx in multiset(block.txs) <==> tx in multiset(txs) + multiset(missing);
    }
  }
}
