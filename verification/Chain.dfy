/** Blocks, chains and the height-indexed view of the chain index. */
module Chain {
  import opened Options

  const MAX_FORK_DEPTH: nat := 50

  type Hash = string
  type TxId = string

  datatype Block = Block(height: nat, hash: Hash, previous: Option<Hash>, timestamp: nat, txs: seq<TxId>)

  /** What the chain source returns for a height: a block, its transactions and the ones it could not get. */
  datatype Fetched = Fetched(block: Block, txs: seq<TxId>, missing: seq<TxId>)

  /** The source's answers during one import, by height; `None` is a failed request. */
  type Source = nat -> Option<Fetched>

  /** The chain index seen through `getBlockHashByHeight` and `getMaxHeight`: one block per height. */
  type Index = map<nat, Block>

  /** The source may say anything, as long as an answer carries the requested height. */
  ghost predicate CarriesHeight(src: Source) {
    forall h: nat :: src(h).Some? ==> src(h).value.block.height == h
  }

  /** Heights `start..next-1` and no others. */
  ghost predicate Contiguous(ix: Index, start: nat, next: nat) {
    start <= next && forall h: nat :: h in ix <==> start <= h < next
  }

  ghost predicate Keyed(ix: Index) {
    forall h :: h in ix ==> ix[h].height == h
  }

  /** Each block names the hash of the block below it. */
  ghost predicate Linked(ix: Index) {
    forall g, h :: g in ix && h in ix && h == g + 1 ==> ix[h].previous == Some(ix[g].hash)
  }

  /** The linked-chain invariant: gap-free from `start`, keyed by height, hash-linked. */
  ghost predicate LinkedChain(ix: Index, start: nat, next: nat) {
    Contiguous(ix, start, next) && Keyed(ix) && Linked(ix)
  }

  ghost predicate IsLinkedChain(ix: Index, start: nat) {
    exists next :: LinkedChain(ix, start, next)
  }

  /** `resetToHeight`: keeps `r` and drops everything above. */
  function Truncate(ix: Index, r: int): Index {
    map h | h in ix && h <= r :: ix[h]
  }

  /** A source chain: block `h` sits at position `h` and names block `h-1`. */
  ghost predicate ValidChain(s: seq<Block>) {
    && (forall h :: 0 <= h < |s| ==> s[h].height == h)
    && (forall g, h :: 0 <= g < h < |s| && h == g + 1 ==> s[h].previous == Some(s[g].hash))
  }

  /** A reorganisation from `s` to `s'` that keeps every block 50 or more below the highest height seen. */
  ghost predicate ReorgBounded(s: seq<Block>, s': seq<Block>, highest: int) {
    var kept := highest - MAX_FORK_DEPTH;
    kept < |s| && kept < |s'| && forall h: nat :: h <= kept ==> s'[h] == s[h]
  }

  /** The source answers from chain `s`, or fails. */
  ghost predicate ServesFrom(src: Source, s: seq<Block>) {
    forall h: nat :: src(h).Some? ==> h < |s| && src(h).value.block == s[h]
  }

  /** The source answers every request below the tip of `s`. */
  ghost predicate Serves(src: Source, s: seq<Block>) {
    forall h: nat :: if h < |s| then src(h).Some? && src(h).value.block == s[h] else src(h).None?
  }

  /** Hash determines block, between an index and a chain. */
  ghost predicate HashesAgree(ix: Index, s: seq<Block>) {
    forall h, k :: h in ix && 0 <= k < |s| && ix[h].hash == s[k].hash ==> ix[h] == s[k]
  }

  /** The index and the chain hold the same block at every indexed height below `c`. */
  ghost predicate AgreesBelow(ix: Index, s: seq<Block>, c: int) {
    forall h: nat :: h in ix && h < c ==> h < |s| && ix[h] == s[h]
  }

  /** The heights `start..c-1` of `s`. */
  function Slice(s: seq<Block>, start: nat, c: nat): (ix: Index)
    requires c <= |s|
  {
    map h: nat | start <= h < c :: s[h]
  }

  /** Agreement at one height carries down the hash links to every height below it. */
  lemma {:induction false} AgreementIsDownwardClosed(ix: Index, start: nat, next: nat, s: seq<Block>, h: nat)
    requires LinkedChain(ix, start, next) && ValidChain(s) && HashesAgree(ix, s)
    requires h in ix && h < |s| && ix[h].hash == s[h].hash
    ensures AgreesBelow(ix, s, h + 1)
  {
    if start < h {
      var g: nat := h - 1;
      assert g in ix;
      assert ix[h].previous == Some(ix[g].hash) && s[h].previous == Some(s[g].hash);
      AgreementIsDownwardClosed(ix, start, next, s, g);
    }
  }
}
