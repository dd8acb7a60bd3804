/** The composite client's block requests: cached by height only below the depth the chain can still change. */
module HeightCache {
  import opened Options
  import opened Chain
  import opened BlockStore

  /** Only heights more than `MAX_FORK_DEPTH` below the largest height observed are cached. */
  function CacheHeight(maxPrefetchHeight: int, b: Block): Option<nat> {
    if maxPrefetchHeight - b.height > MAX_FORK_DEPTH then Some(b.height) else None
  }

  /** What `prefetchBlockByHeight` makes of the block it got, from the cache or from the node. */
  function Keep(kv: Store, maxPrefetchHeight: int, height: nat, b: Block): (Store, Option<Block>) {
    if Sane(b) then (Set(kv, b, CacheHeight(maxPrefetchHeight, b)), Some(b))
    else (DelByHash(DelByHeight(kv, height), b.hash), None)
  }

  /** The store afterwards and the block served; `answer` is the trusted node's, if it is asked. */
  function Prefetch(
      kv: Store, maxPrefetchHeight: int, skipCache: bool, height: nat, answer: Option<Block>): (Store, Option<Block>) {
    var cached := GetByHeight(kv, height);
    if !skipCache && cached.Some? then Keep(kv, maxPrefetchHeight, height, cached.value)
    else match answer
      case None => (kv, None)
      case Some(b) => Keep(kv, maxPrefetchHeight, height, b)
  }

  class CompositeClient {
    const blockStore: KvBlockStore
    const skipCache: bool
    var maxPrefetchHeight: int

    constructor (blockStore: KvBlockStore, skipCache: bool)
      ensures this.blockStore == blockStore && this.skipCache == skipCache && maxPrefetchHeight == -1
    {
      this.blockStore, this.skipCache := blockStore, skipCache;
      maxPrefetchHeight := -1;
    }

    method GetHeight(response: int) returns (height: int)
      modifies this
      ensures height == response
      ensures maxPrefetchHeight == if old(maxPrefetchHeight) < response then response else old(maxPrefetchHeight)
    {
      if maxPrefetchHeight < response {
        maxPrefetchHeight := response;
      }
      return response;
    }

    method PrefetchBlockByHeight(height: nat, answer: Option<Block>) returns (r: Option<Block>)
      modifies blockStore
      ensures (blockStore.kv, r) == Prefetch(old(blockStore.kv), maxPrefetchHeight, skipCache, height, answer)
    {
      var block := blockStore.GetBlockByHeight(height);
      if skipCache || block.None? {
        block := answer;
        if block.None? {
          return None;
        }
      }
      if Sane(block.value) {
        var height := block.value.height;
        blockStore.SetBlock(block.value, if maxPrefetchHeight - height > MAX_FORK_DEPTH then Some(height) else None);
        return block;
      } else {
        blockStore.DeleteByHeight(height);
        blockStore.DeleteByHash(block.value.hash);
        return None;
      }
    }
  }

  // ---------------------------------------------------------------- histories

  /**
   What happens while the source is on `chain`: the client sees a height, or asks for a block and may get no answer.
   */
  datatype Event = Observe(tip: int) | Request(height: nat, answered: bool)
  datatype Step = Step(chain: seq<Block>, event: Event)
  datatype State = State(kv: Store, maxPrefetchHeight: int)

  function Answer(s: seq<Block>, e: Event): Option<Block>
    requires e.Request?
  {
    if e.answered && e.height < |s| then Some(s[e.height]) else None
  }

  function Next(st: State, skipCache: bool, step: Step): (State, Option<Block>) {
    match step.event
    case Observe(tip) =>
      (st.(maxPrefetchHeight := if st.maxPrefetchHeight < tip then tip else st.maxPrefetchHeight), None)
    case Request(height, _) =>
      var (kv, served) := Prefetch(st.kv, st.maxPrefetchHeight, skipCache, height, Answer(step.chain, step.event));
      (st.(kv := kv), served)
  }

  function StateAfter(skipCache: bool, steps: seq<Step>, k: nat): State
    requires k <= |steps|
  {
    if k == 0 then State(map[], -1) else Next(StateAfter(skipCache, steps, k - 1), skipCache, steps[k - 1]).0
  }

  /** Chains of sane blocks at their own heights. */
  ghost predicate GoodChains(steps: seq<Step>) {
    && (forall k, h :: 0 <= k < |steps| && 0 <= h < |steps[k].chain| ==>
          Sane(steps[k].chain[h]) && steps[k].chain[h].height == h)
  }

  ghost predicate GoodHistory(skipCache: bool, steps: seq<Step>) {
    && GoodChains(steps)
    && (forall j, k :: 0 <= j < k < |steps| && k == j + 1 ==>
          ReorgBounded(steps[j].chain, steps[k].chain, StateAfter(skipCache, steps, k).maxPrefetchHeight))
  }

  /** The boundary is the largest height observed so far, -1 before any. */
  lemma {:induction false} BoundaryIsTheLargest(skipCache: bool, steps: seq<Step>, k: nat)
    requires k <= |steps|
    ensures var mark := StateAfter(skipCache, steps, k).maxPrefetchHeight;
      && mark >= -1 && (forall j :: 0 <= j < k && steps[j].event.Observe? ==> steps[j].event.tip <= mark)
      && (mark == -1 || exists j :: 0 <= j < k && steps[j].event == Observe(mark))
  {
    if k > 0 {
      BoundaryIsTheLargest(skipCache, steps, k - 1);
      var before, mark := StateAfter(skipCache, steps, k - 1).maxPrefetchHeight,
        StateAfter(skipCache, steps, k).maxPrefetchHeight;
      assert mark != before ==> steps[k - 1].event == Observe(mark);
    }
  }

  /**
   Whatever node and cache answer, only sane blocks are stored and served; an insane answer is not served, and takes
   what was cached under the height and under its hash with it.
   */
  lemma OnlySaneIsServed(kv: Store, maxPrefetchHeight: int, skipCache: bool, height: nat, answer: Option<Block>)
    requires Coherent(kv)
    ensures var (kv', served) := Prefetch(kv, maxPrefetchHeight, skipCache, height, answer);
      && Coherent(kv') && (served.Some? ==> Sane(served.value))
      && ((skipCache || GetByHeight(kv, height).None?) && answer.Some? && !Sane(answer.value) ==>
            served.None? && GetByHeight(kv', height).None? && GetByHash(kv', answer.value.hash).None?)
  {
    var cached := GetByHeight(kv, height);
    if !skipCache && cached.Some? {
      SetKeepsCoherent(kv, cached.value, CacheHeight(maxPrefetchHeight, cached.value));
    } else if answer.Some? {
      var b := answer.value;
      if Sane(b) {
        SetKeepsCoherent(kv, b, CacheHeight(maxPrefetchHeight, b));
      } else {
        DelByHeightKeepsCoherent(kv, height);
        DeletedHeightIsGone(kv, height);
        DelByHashKeepsCoherent(DelByHeight(kv, height), b.hash);
        DeletedHashIsGone(DelByHeight(kv, height), b.hash);
      }
    }
  }

  /** Cached heights are out of reach of a reorganisation and hold the chain's own blocks. */
  ghost predicate CachedAgrees(st: State, s: seq<Block>) {
    && Coherent(st.kv)
    && forall h: nat :: HeightKey(h) in st.kv ==>
         h < st.maxPrefetchHeight - MAX_FORK_DEPTH && h < |s| && GetByHeight(st.kv, h) == Some(Decoded(s[h]))
  }

  lemma KeepAgrees(st: State, s: seq<Block>, height: nat, b: Block)
    requires CachedAgrees(st, s) && height < |s|
    requires Sane(b) && b.height == height && Decoded(b) == Decoded(s[height])
    ensures CachedAgrees(st.(kv := Set(st.kv, b, CacheHeight(st.maxPrefetchHeight, b))), s)
  {
    var kv' := Set(st.kv, b, CacheHeight(st.maxPrefetchHeight, b));
    SetKeepsCoherent(st.kv, b, CacheHeight(st.maxPrefetchHeight, b));
    forall h: nat | HeightKey(h) in kv'
      ensures h < st.maxPrefetchHeight - MAX_FORK_DEPTH && h < |s| && GetByHeight(kv', h) == Some(Decoded(s[h]))
    {
      if HeightKey(h) in st.kv {
        assert GetByHeight(st.kv, h).Some? && GetByHeight(kv', h) == GetByHeight(st.kv, h);
      }
    }
  }

  /** One step keeps the agreement, and any block served is the chain's own. */
  lemma StepAgrees(st: State, skipCache: bool, step: Step)
    requires CachedAgrees(st, step.chain) && GoodChains([step])
    ensures CachedAgrees(Next(st, skipCache, step).0, step.chain)
    ensures ServesTheChain(step, Next(st, skipCache, step).1)
  {
    assert [step][0] == step;
    if step.event.Request? {
      var height := step.event.height;
      var cached := GetByHeight(st.kv, height);
      if !skipCache && cached.Some? {
        KeepAgrees(st, step.chain, height, cached.value);
      } else if Answer(step.chain, step.event).Some? {
        KeepAgrees(st, step.chain, height, step.chain[height]);
      }
    }
  }

  /** What is served for a height, if anything, is the chain's block there, up to how an absent parent is written. */
  ghost predicate ServesTheChain(step: Step, served: Option<Block>) {
    served.Some? ==>
      && step.event.Request? && step.event.height < |step.chain|
      && Decoded(served.value) == Decoded(step.chain[step.event.height])
  }

  lemma {:induction false} AgreesBefore(skipCache: bool, steps: seq<Step>, k: nat)
    requires GoodHistory(skipCache, steps) && k < |steps|
    ensures CachedAgrees(StateAfter(skipCache, steps, k), steps[k].chain)
  {
    if k > 0 {
      AgreesBefore(skipCache, steps, k - 1);
      assert [steps[k - 1]][0] == steps[k - 1];
      StepAgrees(StateAfter(skipCache, steps, k - 1), skipCache, steps[k - 1]);
      assert ReorgBounded(steps[k - 1].chain, steps[k].chain, StateAfter(skipCache, steps, k).maxPrefetchHeight);
    }
  }

  /** In every history, whatever is served for a height, from cache or node, is the source's current block there. */
  lemma ServedIsCurrent(skipCache: bool, steps: seq<Step>, k: nat)
    requires GoodHistory(skipCache, steps) && k < |steps|
    ensures ServesTheChain(steps[k], Next(StateAfter(skipCache, steps, k), skipCache, steps[k]).1)
  {
    AgreesBefore(skipCache, steps, k);
    assert [steps[k]][0] == steps[k];
    StepAgrees(StateAfter(skipCache, steps, k), skipCache, steps[k]);
  }

  /**
   A request is served exactly when the chain has the height and the node answers or the height is cached and caches
   are used.
   */
  lemma ServedExactlyWhen(skipCache: bool, steps: seq<Step>, k: nat)
    requires GoodHistory(skipCache, steps) && k < |steps| && steps[k].event.Request?
    ensures var st, e := StateAfter(skipCache, steps, k), steps[k].event;
      var served := Next(st, skipCache, steps[k]).1;
      served.Some? <==> e.height < |steps[k].chain| && (e.answered || (!skipCache && HeightKey(e.height) in st.kv))
  {
    AgreesBefore(skipCache, steps, k);
  }

  /** A block cached by height at step `j` is the source's block there at `j` and at every later step `k`. */
  lemma {:induction false} CachedIsFinal(skipCache: bool, steps: seq<Step>, j: nat, k: nat, h: nat)
    requires GoodHistory(skipCache, steps) && j <= k < |steps| && HeightKey(h) in StateAfter(skipCache, steps, j).kv
    ensures h < StateAfter(skipCache, steps, k).maxPrefetchHeight - MAX_FORK_DEPTH && h < |steps[k].chain|
    ensures GetByHeight(StateAfter(skipCache, steps, j).kv, h) == Some(Decoded(steps[k].chain[h]))
  {
    if j == k {
      AgreesBefore(skipCache, steps, k);
    } else {
      CachedIsFinal(skipCache, steps, j, k - 1, h);
      assert ReorgBounded(steps[k - 1].chain, steps[k].chain, StateAfter(skipCache, steps, k).maxPrefetchHeight);
    }
  }

  /**
   A request caches a block by height exactly when it serves one more than 50 below the largest height observed that was
   not stored before: a block first fetched nearer the tip stays uncached by height, and nothing is ever uncached.
   */
  lemma CachedExactlyWhen(skipCache: bool, steps: seq<Step>, k: nat, h: nat)
    requires GoodHistory(skipCache, steps) && k < |steps|
    ensures var st, st', e := StateAfter(skipCache, steps, k), StateAfter(skipCache, steps, k + 1), steps[k].event;
      HeightKey(h) in st'.kv <==>
        || HeightKey(h) in st.kv
        || (e.Request? && e.height == h && Next(st, skipCache, steps[k]).1.Some?
            && h < st.maxPrefetchHeight - MAX_FORK_DEPTH && HashKey(steps[k].chain[h].hash) !in st.kv)
  {
    AgreesBefore(skipCache, steps, k);
    assert [steps[k]][0] == steps[k];
    StepAgrees(StateAfter(skipCache, steps, k), skipCache, steps[k]);
  }
}
