/**
 Finality and the height cache together: the importer reads the chain through the composite client, whose cache it
 fills and is served from, while the node behind it reorganises.
 */
module CachedImports {
  import opened Options
  import opened Integers
  import opened Chain
  import opened ForkWalk
  import opened BlockTables
  import opened Finality
  import BlockStore
  import HeightCache

  /**
   The client polls the node's height, asks for a block, as when it prefetches ahead, or the importer imports through
   it.
   */
  datatype Event =
    | Poll(tip: int)
    | Request(height: nat, answered: bool)
    | Import(node: Node)

  /**
   During one import: which requests the node answers, and what is fetched and missing of each block's transactions.
   */
  datatype Node = Node(answers: nat -> bool, lists: nat -> (seq<TxId>, seq<TxId>))

  /** What happens while the node is on `chain`. */
  datatype Step = Step(chain: seq<Block>, event: Event)

  datatype World = World(tables: Tables, highWater: int, cache: HeightCache.State)

  const EMPTY_WORLD := World(Tables(map[], map[]), -1, HeightCache.State(map[], -1))

  // ---------------------------------------------------------------- one import

  /** A block request by height: the client afterwards and the block served. */
  type Ask = (HeightCache.State, nat) -> (HeightCache.State, Option<Block>)

  function Asked(cache: HeightCache.State, skip: bool, s: seq<Block>, height: nat, answered: bool)
    : (HeightCache.State, Option<Block>)
  {
    HeightCache.Next(cache, skip, HeightCache.Step(s, HeightCache.Request(height, answered)))
  }

  function AskDuring(skip: bool, s: seq<Block>, node: Node): Ask {
    (cache: HeightCache.State, height: nat) => Asked(cache, skip, s, height, node.answers(height))
  }

  function WithLists(served: Option<Block>, node: Node, height: nat): Option<Fetched> {
    match served
    case None => None
    case Some(b) => Some(Fetched(b, node.lists(height).0, node.lists(height).1))
  }

  /** `getBlockOrForkedBlock`, with the client between the importer and the node. */
  function CachedWalk(
      ix: Index, start: nat, cache: HeightCache.State, ask: Ask, node: Node, height: nat, depth: nat)
    : (WalkResult, HeightCache.State)
    requires depth <= MAX_FORK_DEPTH + 1
    decreases MAX_FORK_DEPTH + 1 - depth
  {
    if depth > MAX_FORK_DEPTH then (WalkResult([], DepthExceeded), cache)
    else
      var (cache', served) := ask(cache, height);
      match WithLists(served, node, height)
      case None => (WalkResult([], SourceFailed), cache')
      case Some(fetched) =>
        if height > start && Mismatch(ix, height, fetched.block) then
          var (below, cache'') := CachedWalk(ix, start, cache', ask, node, height - 1, depth + 1);
          (WalkResult([height - 2] + below.resets, below.outcome), cache'')
        else (WalkResult([], Found(fetched)), cache')
  }

  ghost function ImportWalk(w: World, start: nat, skip: bool, s: seq<Block>, node: Node)
    : (WalkResult, HeightCache.State)
  {
    var ix := View(w.tables);
    CachedWalk(ix, start, w.cache, AskDuring(skip, s, node), node, NextHeight(ix, start), 0)
  }

  ghost function Next(w: World, start: nat, skip: bool, step: Step): World {
    match step.event
    case Poll(tip) =>
      w.(cache := HeightCache.Next(w.cache, skip, HeightCache.Step(step.chain, HeightCache.Observe(tip))).0)
    case Request(height, answered) => w.(cache := Asked(w.cache, skip, step.chain, height, answered).0)
    case Import(node) =>
      var (walk, cache) := ImportWalk(w, start, skip, step.chain, node);
      var raised := Raise(w.highWater, TablesAfterWalk(w.tables, walk));
      World(raised.tables, raised.highWater, cache)
  }

  // ---------------------------------------------------------------- the client is a source

  /** Blocks as the node serves them: sane, at their own heights, an absent parent written as none. */
  ghost predicate Clean(s: seq<Block>) {
    forall h :: 0 <= h < |s| ==> s[h].height == h && BlockStore.Sane(s[h]) && BlockStore.Decoded(s[h]) == s[h]
  }

  ghost predicate GoodChain(s: seq<Block>, universe: iset<Block>) {
    ValidChain(s) && ChainIn(s, universe) && Clean(s)
  }

  predicate Cached(cache: HeightCache.State, height: nat) {
    BlockStore.HeightKey(height) in cache.kv
  }

  /** What the client answers during an import: what the node answers and what it has itself. */
  function Served(cache: HeightCache.State, skip: bool, s: seq<Block>, node: Node, height: nat): Option<Block> {
    if height < |s| && (node.answers(height) || (!skip && Cached(cache, height))) then Some(s[height]) else None
  }

  function Client(cache: HeightCache.State, skip: bool, s: seq<Block>, node: Node): Source {
    (h: nat) => WithLists(Served(cache, skip, s, node, h), node, h)
  }

  /** The cache agrees with the chain, seen from a client that has observed `observed`. */
  ghost predicate Agrees(cache: HeightCache.State, s: seq<Block>, observed: int) {
    HeightCache.CachedAgrees(cache, s) && cache.maxPrefetchHeight == observed
  }

  /** The same heights up to `height` are cached. */
  ghost predicate SameUpTo(cache: HeightCache.State, before: HeightCache.State, height: nat) {
    forall g: nat :: g <= height ==> (Cached(cache, g) <==> Cached(before, g))
  }

  /** A request is served with the chain's own block, and caches no other height. */
  lemma AskServes(cache: HeightCache.State, skip: bool, s: seq<Block>, height: nat, answered: bool)
    requires HeightCache.CachedAgrees(cache, s) && Clean(s)
    ensures var (cache', served) := Asked(cache, skip, s, height, answered);
      && served == (if height < |s| && (answered || (!skip && Cached(cache, height))) then Some(s[height]) else None)
      && Agrees(cache', s, cache.maxPrefetchHeight)
      && (forall g: nat :: g != height ==> (Cached(cache', g) <==> Cached(cache, g)))
  {
    HeightCache.StepAgrees(cache, skip, HeightCache.Step(s, HeightCache.Request(height, answered)));
  }

  /** Each request keeps the agreement. */
  ghost predicate KeepsAgreement(ask: Ask, s: seq<Block>, observed: int) {
    forall cache, height: nat :: Agrees(cache, s, observed) ==> Agrees(ask(cache, height).0, s, observed)
  }

  /** From a cache that only requests above have changed, a request is answered as `src` says. */
  ghost predicate AnswersAs(
      ask: Ask, node: Node, s: seq<Block>, observed: int, before: HeightCache.State, src: Source)
  {
    forall cache, height: nat :: Agrees(cache, s, observed) && SameUpTo(cache, before, height) ==>
      && src(height) == WithLists(ask(cache, height).1, node, height)
      && (height > 0 ==> SameUpTo(ask(cache, height).0, before, height - 1))
  }

  lemma DuringAnImport(before: HeightCache.State, skip: bool, s: seq<Block>, node: Node)
    requires Clean(s)
    ensures KeepsAgreement(AskDuring(skip, s, node), s, before.maxPrefetchHeight)
    ensures AnswersAs(
      AskDuring(skip, s, node), node, s, before.maxPrefetchHeight, before, Client(before, skip, s, node))
  {
    var ask, observed := AskDuring(skip, s, node), before.maxPrefetchHeight;
    forall cache, height: nat | Agrees(cache, s, observed) ensures Agrees(ask(cache, height).0, s, observed) {
      AskServes(cache, skip, s, height, node.answers(height));
    }
    forall cache, height: nat | Agrees(cache, s, observed) && SameUpTo(cache, before, height)
      ensures Client(before, skip, s, node)(height) == WithLists(ask(cache, height).1, node, height)
      ensures height > 0 ==> SameUpTo(ask(cache, height).0, before, height - 1)
    {
      AskServes(cache, skip, s, height, node.answers(height));
    }
  }

  /** A walk whose requests are answered as `src` says is the walk over `src`, and the cache goes on agreeing. */
  lemma {:induction false} WalkThroughClient(
      ix: Index, start: nat, before: HeightCache.State, cache: HeightCache.State, ask: Ask, s: seq<Block>, node: Node,
      src: Source, height: nat, depth: nat)
    requires depth <= MAX_FORK_DEPTH + 1 && KeepsAgreement(ask, s, before.maxPrefetchHeight)
    requires AnswersAs(ask, node, s, before.maxPrefetchHeight, before, src)
    requires Agrees(cache, s, before.maxPrefetchHeight) && SameUpTo(cache, before, height)
    ensures CachedWalk(ix, start, cache, ask, node, height, depth).0 == Walk(ix, start, src, height, depth)
    ensures Agrees(CachedWalk(ix, start, cache, ask, node, height, depth).1, s, before.maxPrefetchHeight)
    decreases MAX_FORK_DEPTH + 1 - depth
  {
    if depth <= MAX_FORK_DEPTH {
      var (cache', served) := ask(cache, height);
      if height > start && src(height).Some? && Mismatch(ix, height, src(height).value.block) {
        WalkThroughClient(ix, start, before, cache', ask, s, node, src, height - 1, depth + 1);
      }
    }
  }

  lemma ClientServesFrom(cache: HeightCache.State, skip: bool, s: seq<Block>, node: Node)
    ensures ServesFrom(Client(cache, skip, s, node), s)
  {
  }

  // ---------------------------------------------------------------- histories

  ghost function After(start: nat, skip: bool, steps: seq<Step>): World {
    if steps == [] then EMPTY_WORLD else Next(After(start, skip, steps[..|steps| - 1]), start, skip, steps[|steps| - 1])
  }

  /** The world after the first `k` steps. */
  ghost function At(start: nat, skip: bool, steps: seq<Step>, k: nat): World
    requires k <= |steps|
  {
    After(start, skip, steps[..k])
  }

  /** The highest height that the index or the client has seen. */
  function Mark(w: World): int {
    Max(w.highWater, w.cache.maxPrefetchHeight)
  }

  /** Step `k` finds the node at most a reorganisation of the top 50 heights away from the step before. */
  ghost predicate ChangeBounded(start: nat, skip: bool, steps: seq<Step>, k: nat)
    requires 0 < k < |steps|
  {
    ReorgBounded(steps[k - 1].chain, steps[k].chain, Mark(At(start, skip, steps, k)))
  }

  ghost predicate GoodChains(steps: seq<Step>, universe: iset<Block>) {
    HashDeterminesBlock(universe) && forall k :: 0 <= k < |steps| ==> GoodChain(steps[k].chain, universe)
  }

  ghost predicate GoodHistory(start: nat, skip: bool, steps: seq<Step>, universe: iset<Block>) {
    GoodChains(steps, universe) && forall k: nat :: 0 < k < |steps| ==> ChangeBounded(start, skip, steps, k)
  }

  lemma AtStep(start: nat, skip: bool, steps: seq<Step>, k: nat)
    requires k < |steps|
    ensures At(start, skip, steps, k + 1) == Next(At(start, skip, steps, k), start, skip, steps[k])
  {
    assert steps[..k + 1][..k] == steps[..k];
  }

  // ---------------------------------------------------------------- the invariant

  /** The index is final and the cache agrees, both for the chain the node is on. */
  ghost predicate Sound(w: World, start: nat, s: seq<Block>, universe: iset<Block>) {
    IsFinal(State(w.tables, w.highWater), start, s, universe) && HeightCache.CachedAgrees(w.cache, s)
  }

  lemma ImportIsRound(w: World, start: nat, skip: bool, s: seq<Block>, universe: iset<Block>, node: Node)
    requires HeightCache.CachedAgrees(w.cache, s) && GoodChain(s, universe)
    ensures ImportWalk(w, start, skip, s, node).0 == RoundWalk(w.tables, start, Client(w.cache, skip, s, node))
    ensures HeightCache.CachedAgrees(ImportWalk(w, start, skip, s, node).1, s)
    ensures ImportWalk(w, start, skip, s, node).1.maxPrefetchHeight == w.cache.maxPrefetchHeight
    ensures GoodRound(Round(s, Client(w.cache, skip, s, node)), universe)
  {
    ClientServesFrom(w.cache, skip, s, node);
    DuringAnImport(w.cache, skip, s, node);
    WalkThroughClient(
      View(w.tables), start, w.cache, w.cache, AskDuring(skip, s, node), s, node, Client(w.cache, skip, s, node),
      NextHeight(View(w.tables), start), 0);
  }

  lemma ImportKeepsSound(w: World, start: nat, skip: bool, s: seq<Block>, universe: iset<Block>, node: Node)
    requires Sound(w, start, s, universe) && GoodChain(s, universe) && HashDeterminesBlock(universe)
    ensures var w' := Next(w, start, skip, Step(s, Import(node)));
      Sound(w', start, s, universe) && StableGrows(w.tables, w'.tables)
    ensures SafeWalk(w.tables, ImportWalk(w, start, skip, s, node).0)
  {
    ImportIsRound(w, start, skip, s, universe, node);
    RoundKeepsFinal(State(w.tables, w.highWater), start, Round(s, Client(w.cache, skip, s, node)), universe);
  }

  lemma StepKeepsSound(w: World, start: nat, skip: bool, step: Step, universe: iset<Block>)
    requires Sound(w, start, step.chain, universe) && GoodChain(step.chain, universe) && HashDeterminesBlock(universe)
    ensures Sound(Next(w, start, skip, step), start, step.chain, universe)
    ensures StableGrows(w.tables, Next(w, start, skip, step).tables)
  {
    match step.event
    case Poll(tip) =>
    case Request(height, answered) => AskServes(w.cache, skip, step.chain, height, answered);
    case Import(node) => ImportKeepsSound(w, start, skip, step.chain, universe, node);
  }

  lemma ReorgKeepsSound(w: World, start: nat, s: seq<Block>, s': seq<Block>, universe: iset<Block>)
    requires Sound(w, start, s, universe) && ReorgBounded(s, s', Mark(w))
    ensures Sound(w, start, s', universe)
  {
    ReorgKeepsFinal(State(w.tables, w.highWater), start, s, s', universe);
  }

  lemma {:induction false} SoundBefore(start: nat, skip: bool, steps: seq<Step>, universe: iset<Block>, k: nat)
    requires GoodHistory(start, skip, steps, universe) && k < |steps|
    ensures Sound(At(start, skip, steps, k), start, steps[k].chain, universe)
  {
    if k == 0 {
      EmptyIsFinal(start, steps[0].chain, universe);
    } else {
      SoundBefore(start, skip, steps, universe, k - 1);
      AtStep(start, skip, steps, k - 1);
      StepKeepsSound(At(start, skip, steps, k - 1), start, skip, steps[k - 1], universe);
      assert ChangeBounded(start, skip, steps, k);
      ReorgKeepsSound(At(start, skip, steps, k), start, steps[k - 1].chain, steps[k].chain, universe);
    }
  }

  // ---------------------------------------------------------------- what holds of every history

  /** No import through the client gives up on depth or resets below a flushed height. */
  lemma CachedImportsAreSafe(start: nat, skip: bool, steps: seq<Step>, universe: iset<Block>, k: nat)
    requires GoodHistory(start, skip, steps, universe) && k < |steps| && steps[k].event.Import?
    ensures var w := At(start, skip, steps, k);
      SafeWalk(w.tables, ImportWalk(w, start, skip, steps[k].chain, steps[k].event.node).0)
  {
    SoundBefore(start, skip, steps, universe, k);
    ImportKeepsSound(At(start, skip, steps, k), start, skip, steps[k].chain, universe, steps[k].event.node);
  }

  lemma StableStaysOneStep(start: nat, skip: bool, steps: seq<Step>, universe: iset<Block>, k: nat)
    requires GoodHistory(start, skip, steps, universe) && k < |steps|
    ensures StableGrows(At(start, skip, steps, k).tables, At(start, skip, steps, k + 1).tables)
  {
    SoundBefore(start, skip, steps, universe, k);
    AtStep(start, skip, steps, k);
    StepKeepsSound(At(start, skip, steps, k), start, skip, steps[k], universe);
  }

  lemma GrowsOn(t: Tables, t': Tables, t'': Tables)
    requires StableGrows(t, t') && StableGrows(t', t'')
    ensures StableGrows(t, t'')
  {
  }

  lemma {:induction false} CachedStableStays(
      start: nat, skip: bool, steps: seq<Step>, universe: iset<Block>, k: nat, j: nat)
    requires GoodHistory(start, skip, steps, universe) && k <= j <= |steps|
    ensures StableGrows(At(start, skip, steps, k).tables, At(start, skip, steps, j).tables)
  {
    if k < j {
      CachedStableStays(start, skip, steps, universe, k, j - 1);
      StableStaysOneStep(start, skip, steps, universe, j - 1);
      var first, last := At(start, skip, steps, k).tables, At(start, skip, steps, j).tables;
      GrowsOn(first, At(start, skip, steps, j - 1).tables, last);
    }
  }

  /**
   Finality through the client: a block flushed by step `k` is still there at every later step `j`, and is then the
   node's own block at its height, 51 or more below the mark; and what the client has cached by height is the node's
   own too.
   */
  lemma CachedStableIsFinal(start: nat, skip: bool, steps: seq<Step>, universe: iset<Block>, k: nat, j: nat)
    requires GoodHistory(start, skip, steps, universe) && k <= j < |steps|
    ensures StableGrows(At(start, skip, steps, k).tables, At(start, skip, steps, j).tables)
    ensures var w := At(start, skip, steps, j);
      StableAgrees(State(w.tables, w.highWater), steps[j].chain) && HeightCache.CachedAgrees(w.cache, steps[j].chain)
  {
    CachedStableStays(start, skip, steps, universe, k, j);
    SoundBefore(start, skip, steps, universe, j);
    var w := At(start, skip, steps, j);
    FinalStableAgrees(State(w.tables, w.highWater), start, steps[j].chain, universe);
  }

  // ---------------------------------------------------------------- the mark is the client's

  /** The importer asks only for heights that a poll has reported. */
  ghost predicate ImportsObserved(start: nat, skip: bool, steps: seq<Step>) {
    forall k: nat :: k < |steps| && steps[k].event.Import? ==> NextIsObserved(At(start, skip, steps, k), start)
  }

  ghost predicate NextIsObserved(w: World, start: nat) {
    NextHeight(View(w.tables), start) <= w.cache.maxPrefetchHeight
  }

  lemma {:induction false} ResetsDropOnly(t: Tables, resets: seq<int>)
    ensures forall h :: h in View(ResetTables(t, resets)) ==> h in View(t)
    decreases |resets|
  {
    if resets != [] {
      ResetsDropOnly(Reset(t, resets[0]), resets[1..]);
    }
  }

  lemma SaveAddsOne(t: Tables, b: Block)
    ensures forall h :: h in View(SaveBlock(t, b)) ==> h in View(t) || h == b.height
  {
  }

  lemma ImportTop(t: Tables, start: nat, src: Source, s: seq<Block>)
    requires ServesFrom(src, s) && ValidChain(s)
    ensures forall h :: h in View(TablesAfterWalk(t, RoundWalk(t, start, src))) ==>
      h in View(t) || h <= NextHeight(View(t), start)
  {
    var w, next := RoundWalk(t, start, src), NextHeight(View(t), start);
    WalkShape(View(t), start, src, next, 0);
    ResetsDropOnly(t, w.resets);
    if w.outcome.Found? {
      SaveAddsOne(ResetTables(t, w.resets), w.outcome.fetched.block);
    }
  }

  lemma ImportStaysObserved(w: World, start: nat, skip: bool, s: seq<Block>, universe: iset<Block>, node: Node)
    requires HeightCache.CachedAgrees(w.cache, s) && GoodChain(s, universe) && NextIsObserved(w, start)
    requires w.highWater <= w.cache.maxPrefetchHeight
    ensures var w' := Next(w, start, skip, Step(s, Import(node))); w'.highWater <= w'.cache.maxPrefetchHeight
  {
    ImportIsRound(w, start, skip, s, universe, node);
    ImportTop(w.tables, start, Client(w.cache, skip, s, node), s);
    TopIsNext(View(w.tables), start);
  }

  lemma TopIsNext(ix: Index, start: nat)
    ensures MaxHeight(ix) < NextHeight(ix, start)
  {
  }

  /** The same, with reorganisations bounded by what the client has observed alone. */
  ghost predicate ObservedHistory(start: nat, skip: bool, steps: seq<Step>, universe: iset<Block>) {
    && GoodChains(steps, universe) && ImportsObserved(start, skip, steps)
    && forall k: nat :: 0 < k < |steps| ==> ObservedChange(start, skip, steps, k)
  }

  ghost predicate ObservedChange(start: nat, skip: bool, steps: seq<Step>, k: nat)
    requires 0 < k < |steps|
  {
    ReorgBounded(steps[k - 1].chain, steps[k].chain, At(start, skip, steps, k).cache.maxPrefetchHeight)
  }

  lemma StepStaysObserved(w: World, start: nat, skip: bool, step: Step, universe: iset<Block>)
    requires Sound(w, start, step.chain, universe) && GoodChain(step.chain, universe)
    requires w.highWater <= w.cache.maxPrefetchHeight && (step.event.Import? ==> NextIsObserved(w, start))
    ensures var w' := Next(w, start, skip, step); w'.highWater <= w'.cache.maxPrefetchHeight
  {
    match step.event
    case Poll(tip) =>
    case Request(height, answered) => AskServes(w.cache, skip, step.chain, height, answered);
    case Import(node) => ImportStaysObserved(w, start, skip, step.chain, universe, node);
  }

  lemma {:induction false} ObservedBefore(start: nat, skip: bool, steps: seq<Step>, universe: iset<Block>, k: nat)
    requires ObservedHistory(start, skip, steps, universe) && k < |steps|
    ensures Sound(At(start, skip, steps, k), start, steps[k].chain, universe)
    ensures At(start, skip, steps, k).highWater <= At(start, skip, steps, k).cache.maxPrefetchHeight
  {
    if k == 0 {
      EmptyIsFinal(start, steps[0].chain, universe);
    } else {
      ObservedBefore(start, skip, steps, universe, k - 1);
      AtStep(start, skip, steps, k - 1);
      StepKeepsSound(At(start, skip, steps, k - 1), start, skip, steps[k - 1], universe);
      StepStaysObserved(At(start, skip, steps, k - 1), start, skip, steps[k - 1], universe);
      assert ObservedChange(start, skip, steps, k);
      ReorgKeepsSound(At(start, skip, steps, k), start, steps[k - 1].chain, steps[k].chain, universe);
    }
  }

  /**
   While the importer asks only for heights that a poll has reported, the index never exceeds what the client has
   observed, so bounding reorganisations by that alone is enough for all of the above.
   */
  lemma ObservedMarkSuffices(start: nat, skip: bool, steps: seq<Step>, universe: iset<Block>)
    requires ObservedHistory(start, skip, steps, universe)
    ensures GoodHistory(start, skip, steps, universe)
    ensures forall k: nat :: k < |steps| ==>
      At(start, skip, steps, k).highWater <= At(start, skip, steps, k).cache.maxPrefetchHeight
  {
    forall k: nat | k < |steps|
      ensures At(start, skip, steps, k).highWater <= At(start, skip, steps, k).cache.maxPrefetchHeight
    {
      ObservedBefore(start, skip, steps, universe, k);
    }
    forall k: nat | 0 < k < |steps| ensures ChangeBounded(start, skip, steps, k) {
      ObservedBefore(start, skip, steps, universe, k);
      assert ObservedChange(start, skip, steps, k);
    }
  }

  // ---------------------------------------------------------------- the requests behind a history

  /** What a client that starts from `cache` holds after `steps`. */
  function RunFrom(cache: HeightCache.State, skip: bool, steps: seq<HeightCache.Step>): HeightCache.State {
    if steps == [] then cache
    else HeightCache.Next(RunFrom(cache, skip, steps[..|steps| - 1]), skip, steps[|steps| - 1]).0
  }

  lemma {:induction false} RunFromAppend(
      cache: HeightCache.State, skip: bool, a: seq<HeightCache.Step>, b: seq<HeightCache.Step>)
    ensures RunFrom(cache, skip, a + b) == RunFrom(RunFrom(cache, skip, a), skip, b)
    decreases |b|
  {
    if b == [] {
      assert a + b == a;
    } else {
      assert (a + b)[..|a + b| - 1] == a + b[..|b| - 1];
      RunFromAppend(cache, skip, a, b[..|b| - 1]);
    }
  }

  lemma {:induction false} RunFromStart(skip: bool, steps: seq<HeightCache.Step>, k: nat)
    requires k <= |steps|
    ensures HeightCache.StateAfter(skip, steps, k) == RunFrom(EMPTY_WORLD.cache, skip, steps[..k])
  {
    if k > 0 {
      RunFromStart(skip, steps, k - 1);
      assert steps[..k][..k - 1] == steps[..k - 1];
    }
  }

  /** Requests for the `n` heights from `height` down. */
  function Asks(s: seq<Block>, node: Node, height: int, n: nat): seq<HeightCache.Step>
    requires n <= height + 1
  {
    if n == 0 then []
    else
      [HeightCache.Step(s, HeightCache.Request(height, node.answers(height)))] + Asks(s, node, height - 1, n - 1)
  }

  /** A walk asks for a height after each reset, unless it has gone past the depth limit. */
  function HeightsAsked(w: WalkResult): nat {
    |w.resets| + if w.outcome.DepthExceeded? then 0 else 1
  }

  lemma AskDown(cache: HeightCache.State, skip: bool, s: seq<Block>, node: Node, height: nat, n: nat)
    requires 0 < n <= height + 1
    ensures RunFrom(cache, skip, Asks(s, node, height, n))
      == RunFrom(Asked(cache, skip, s, height, node.answers(height)).0, skip, Asks(s, node, height - 1, n - 1))
  {
    var first := HeightCache.Step(s, HeightCache.Request(height, node.answers(height)));
    assert [first][..0] == [];
    RunFromAppend(cache, skip, [first], Asks(s, node, height - 1, n - 1));
  }

  /** `w` and `cache'` are how a walk from `height` that asks the client ends. */
  lemma {:induction false} WalkAsks(
      ix: Index, start: nat, cache: HeightCache.State, skip: bool, s: seq<Block>, node: Node, height: nat, depth: nat,
      w: WalkResult, cache': HeightCache.State)
    requires depth <= MAX_FORK_DEPTH + 1
    requires (w, cache') == CachedWalk(ix, start, cache, AskDuring(skip, s, node), node, height, depth)
    ensures HeightsAsked(w) <= height + 1 && cache' == RunFrom(cache, skip, Asks(s, node, height, HeightsAsked(w)))
    decreases MAX_FORK_DEPTH + 1 - depth
  {
    if depth <= MAX_FORK_DEPTH {
      var next := Asked(cache, skip, s, height, node.answers(height)).0;
      if w.resets != [] {
        var (below, cache'') := CachedWalk(ix, start, next, AskDuring(skip, s, node), node, height - 1, depth + 1);
        WalkAsks(ix, start, next, skip, s, node, height - 1, depth + 1, below, cache'');
      }
      AskDown(cache, skip, s, node, height, HeightsAsked(w));
    }
  }

  /** What one step asks the client: an import asks for the heights from the next one down to where its walk ends. */
  ghost function StepAsks(w: World, start: nat, skip: bool, step: Step): seq<HeightCache.Step> {
    match step.event
    case Poll(tip) => [HeightCache.Step(step.chain, HeightCache.Observe(tip))]
    case Request(height, answered) => [HeightCache.Step(step.chain, HeightCache.Request(height, answered))]
    case Import(node) =>
      var height := NextHeight(View(w.tables), start);
      var (walk, cache) := ImportWalk(w, start, skip, step.chain, node);
      WalkAsks(View(w.tables), start, w.cache, skip, step.chain, node, height, 0, walk, cache);
      Asks(step.chain, node, height, HeightsAsked(walk))
  }

  ghost function ClientSteps(start: nat, skip: bool, steps: seq<Step>): seq<HeightCache.Step> {
    if steps == [] then []
    else
      var init, last := steps[..|steps| - 1], steps[|steps| - 1];
      ClientSteps(start, skip, init) + StepAsks(After(start, skip, init), start, skip, last)
  }

  lemma StepRunsTheClient(w: World, start: nat, skip: bool, step: Step)
    ensures Next(w, start, skip, step).cache == RunFrom(w.cache, skip, StepAsks(w, start, skip, step))
  {
    match step.event
    case Poll(tip) =>
      assert StepAsks(w, start, skip, step)[..0] == [];
    case Request(height, answered) =>
      assert StepAsks(w, start, skip, step)[..0] == [];
    case Import(node) =>
      var (walk, cache) := ImportWalk(w, start, skip, step.chain, node);
      var height := NextHeight(View(w.tables), start);
      WalkAsks(View(w.tables), start, w.cache, skip, step.chain, node, height, 0, walk, cache);
  }

  /**
   In every history of polls, requests and imports, the cache is exactly that of a client that saw the polls and
   requests and, for each import, a request for every height from the next one down to where its walk ended.
   */
  lemma {:induction false} CacheIsTheClients(start: nat, skip: bool, steps: seq<Step>)
    ensures var asked := ClientSteps(start, skip, steps);
      After(start, skip, steps).cache == HeightCache.StateAfter(skip, asked, |asked|)
    decreases |steps|
  {
    var asked := ClientSteps(start, skip, steps);
    RunFromStart(skip, asked, |asked|);
    assert asked[..|asked|] == asked;
    if steps != [] {
      var init, last := steps[..|steps| - 1], steps[|steps| - 1];
      var before := ClientSteps(start, skip, init);
      CacheIsTheClients(start, skip, init);
      RunFromStart(skip, before, |before|);
      assert before[..|before|] == before;
      StepRunsTheClient(After(start, skip, init), start, skip, last);
      RunFromAppend(EMPTY_WORLD.cache, skip, before, StepAsks(After(start, skip, init), start, skip, last));
    }
  }
}
