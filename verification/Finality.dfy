/**
 Finality over whole histories: importer, two tiers and a reorganising source together.
 The source may change chain between imports and any request may fail, but it never replaces a block
 50 or more below the highest height indexed so far.
 */
module Finality {
  import opened Options
  import opened Chain
  import opened ForkWalk
  import opened BlockTables

  /** One import: the chain the source is on, and what it answers. */
  datatype Round = Round(chain: seq<Block>, src: Source)

  /** The tables and the highest height indexed so far. */
  datatype State = State(tables: Tables, highWater: int)

  function ResetTables(t: Tables, resets: seq<int>): Tables
    decreases |resets|
  {
    if resets == [] then t else ResetTables(Reset(t, resets[0]), resets[1..])
  }

  function TablesAfterWalk(t: Tables, w: WalkResult): Tables {
    var cut := ResetTables(t, w.resets);
    match w.outcome
    case Found(fetched) => SaveBlock(cut, fetched.block)
    case _ => cut
  }

  ghost function RoundWalk(t: Tables, start: nat, src: Source): WalkResult {
    Walk(View(t), start, src, NextHeight(View(t), start), 0)
  }

  /** Moves the high-water mark up to the top of the index. */
  ghost function Raise(highWater: int, t: Tables): State {
    var top := MaxHeight(View(t));
    State(t, if highWater < top then top else highWater)
  }

  ghost function ImportRound(st: State, start: nat, src: Source): State {
    Raise(st.highWater, TablesAfterWalk(st.tables, RoundWalk(st.tables, start, src)))
  }

  /** From empty tables, one import after another. */
  ghost function After(start: nat, rounds: seq<Round>): State {
    if rounds == [] then State(Tables(map[], map[]), -1)
    else ImportRound(After(start, rounds[..|rounds| - 1]), start, rounds[|rounds| - 1].src)
  }

  /** The state after the first `k` rounds. */
  ghost function StateAfter(start: nat, rounds: seq<Round>, k: nat): State
    requires k <= |rounds|
  {
    After(start, rounds[..k])
  }

  lemma StateStep(start: nat, rounds: seq<Round>, k: nat)
    requires k < |rounds|
    ensures StateAfter(start, rounds, k + 1) == ImportRound(StateAfter(start, rounds, k), start, rounds[k].src)
  {
    assert rounds[..k + 1][..k] == rounds[..k];
  }

  // ---------------------------------------------------------------- the source

  /** Hash determines block. */
  ghost predicate HashDeterminesBlock(universe: iset<Block>) {
    forall a, b :: a in universe && b in universe && a.hash == b.hash ==> a == b
  }

  ghost predicate ChainIn(s: seq<Block>, universe: iset<Block>) {
    forall h :: 0 <= h < |s| ==> s[h] in universe
  }

  ghost predicate IndexIn(ix: Index, universe: iset<Block>) {
    forall h :: h in ix ==> ix[h] in universe
  }

  ghost predicate GoodRound(round: Round, universe: iset<Block>) {
    ValidChain(round.chain) && ServesFrom(round.src, round.chain) && ChainIn(round.chain, universe)
  }

  /** Round `k` finds the source no further than a bounded reorganisation from the round before. */
  ghost predicate ChangeBounded(start: nat, rounds: seq<Round>, k: nat)
    requires 0 < k < |rounds|
  {
    ReorgBounded(rounds[k - 1].chain, rounds[k].chain, StateAfter(start, rounds, k).highWater)
  }

  /** Every round is served from a valid chain, and successive chains differ only near the high-water mark. */
  ghost predicate GoodHistory(start: nat, rounds: seq<Round>, universe: iset<Block>) {
    && HashDeterminesBlock(universe)
    && (forall k :: 0 <= k < |rounds| ==> GoodRound(rounds[k], universe))
    && (forall k: nat :: 0 < k < |rounds| ==> ChangeBounded(start, rounds, k))
  }

  // ---------------------------------------------------------------- the invariant

  /**
   The index is a linked chain reaching to within 50 of the high-water mark and agreeing with the source
   below that; the tiers split at `boundary`, 50 or more below the mark.
   */
  ghost predicate Final(st: State, start: nat, next: nat, boundary: int, s: seq<Block>, universe: iset<Block>) {
    var ix := View(st.tables);
    && Valid(st.tables) && LinkedChain(ix, start, next) && IndexIn(ix, universe)
    && (start < next ==> next - 1 <= st.highWater) && -1 <= st.highWater < next + MAX_FORK_DEPTH
    && TiersSplitAt(st.tables, boundary) && boundary <= st.highWater - MAX_FORK_DEPTH
    && AgreesBelow(ix, s, st.highWater - MAX_FORK_DEPTH + 1)
  }

  ghost predicate IsFinal(st: State, start: nat, s: seq<Block>, universe: iset<Block>) {
    exists next, boundary :: Final(st, start, next, boundary, s, universe)
  }

  lemma UniverseMakesHashesAgree(ix: Index, s: seq<Block>, universe: iset<Block>)
    requires Keyed(ix) && IndexIn(ix, universe) && ChainIn(s, universe) && HashDeterminesBlock(universe)
    ensures HashesUnique(ix) && HashesAgree(ix, s)
  {
  }

  /** A mismatch lies within 50 of the high-water mark, so the walk stays above it and under the depth limit. */
  lemma WalkIsShallow(ix: Index, start: nat, next: nat, highWater: int, round: Round, w: WalkResult)
    requires LinkedChain(ix, start, next) && (start < next ==> next - 1 <= highWater)
    requires AgreesBelow(ix, round.chain, highWater - MAX_FORK_DEPTH + 1)
    requires ValidChain(round.chain) && ServesFrom(round.src, round.chain)
    requires IsWalk(ix, start, round.src, next, 0, w)
    ensures !w.outcome.DepthExceeded?
    ensures forall i :: 0 <= i < |w.resets| ==> w.resets[i] >= highWater - MAX_FORK_DEPTH
    ensures |w.resets| > 0 ==> next - |w.resets| > highWater - MAX_FORK_DEPTH
  {
    forall i | 0 <= i < |w.resets| ensures w.resets[i] >= highWater - MAX_FORK_DEPTH {
      var h := next - i;
      assert w.resets[i] == h - 2 && Forced(ix, round.src, h);
      assert round.chain[h].previous == Some(round.chain[h - 1].hash);
      assert h - 1 in ix;
    }
    if |w.resets| > 0 {
      assert w.resets[|w.resets| - 1] == next - 1 - |w.resets|;
    }
  }

  /** Resets that stay at or above every stable height amount to one truncation of the index. */
  lemma {:induction false} ResetsRefineTruncate(t: Tables, resets: seq<int>, height: int)
    requires Valid(t)
    requires forall i :: 0 <= i < |resets| ==> resets[i] == height - 2 - i
    requires forall h, i :: h in t.stableBlocks && 0 <= i < |resets| ==> h <= resets[i]
    ensures var t' := ResetTables(t, resets);
      && Valid(t') && t'.stableBlocks == t.stableBlocks
      && View(t') == ResetAll(View(t), resets)
    ensures forall h :: h in ResetTables(t, resets).newBlocks ==> h in t.newBlocks
    decreases |resets|
  {
    if resets != [] {
      ResetRefinesTruncate(t, resets[0]);
      ResetsRefineTruncate(Reset(t, resets[0]), resets[1..], height - 1);
    }
  }

  // ---------------------------------------------------------------- one round

  /** What no round ever does: give up on depth, or reset below a flushed height. */
  ghost predicate SafeWalk(t: Tables, w: WalkResult) {
    && !w.outcome.DepthExceeded?
    && forall h, i :: h in t.stableBlocks && 0 <= i < |w.resets| ==> h <= w.resets[i]
  }

  lemma RoundIsSafe(st: State, start: nat, next: nat, boundary: int, round: Round, universe: iset<Block>)
    requires Final(st, start, next, boundary, round.chain, universe) && GoodRound(round, universe)
    ensures SafeWalk(st.tables, RoundWalk(st.tables, start, round.src))
  {
    var ix := View(st.tables);
    NextIsAboveTheTop(ix, start, next);
    WalkShape(ix, start, round.src, next, 0);
    WalkIsShallow(ix, start, next, st.highWater, round, RoundWalk(st.tables, start, round.src));
  }

  /** The block found tops a remainder of the index that lies wholly on the source's chain. */
  lemma FoundBlockIsOnChain(ix: Index, start: nat, next: nat, round: Round, w: WalkResult, universe: iset<Block>)
    requires LinkedChain(ix, start, next) && IndexIn(ix, universe)
    requires GoodRound(round, universe) && HashDeterminesBlock(universe)
    requires IsWalk(ix, start, round.src, next, 0, w) && w.outcome.Found?
    ensures var top := next - |w.resets|; var cut := Cut(ix, next, |w.resets|);
      && start <= top < |round.chain| && w.outcome.fetched.block == round.chain[top]
      && LinkedChain(cut, start, top) && AgreesBelow(cut, round.chain, top)
  {
    var top := next - |w.resets|;
    var cut := Cut(ix, next, |w.resets|);
    CutIsLinked(ix, start, next, next, |w.resets|);
    UniverseMakesHashesAgree(ix, round.chain, universe);
    if top > start {
      assert w.outcome.fetched.block == round.chain[top] && !Mismatch(ix, top, round.chain[top]);
      assert round.chain[top].previous == Some(round.chain[top - 1].hash);
      AgreementIsDownwardClosed(ix, start, next, round.chain, top - 1);
    }
  }

  /** The tables after the resets of a round: the stable tier untouched, the index cut. */
  lemma RoundCut(st: State, start: nat, next: nat, boundary: int, round: Round, universe: iset<Block>, w: WalkResult)
    requires Final(st, start, next, boundary, round.chain, universe) && GoodRound(round, universe)
    requires IsWalk(View(st.tables), start, round.src, next, 0, w)
    ensures var cut := ResetTables(st.tables, w.resets);
      && Valid(cut) && cut.stableBlocks == st.tables.stableBlocks && TiersSplitAt(cut, boundary)
      && View(cut) == Cut(View(st.tables), next, |w.resets|)
    ensures w.resets != [] ==> next - |w.resets| > st.highWater - MAX_FORK_DEPTH
  {
    WalkIsShallow(View(st.tables), start, next, st.highWater, round, w);
    ResetsRefineTruncate(st.tables, w.resets, next);
    AfterResets(View(st.tables), start, round.src, next, w, |w.resets|);
  }

  /** Cutting the index above the last 50 heights keeps the invariant. */
  lemma CutKeepsFinal(
      st: State, start: nat, next: nat, boundary: int, s: seq<Block>, universe: iset<Block>, cut: Tables, n: nat)
    requires Final(st, start, next, boundary, s, universe)
    requires Valid(cut) && TiersSplitAt(cut, boundary) && n <= next && View(cut) == Cut(View(st.tables), next, n)
    requires n > 0 ==> start <= next - n && next - n > st.highWater - MAX_FORK_DEPTH
    ensures Final(State(cut, st.highWater), start, next - n, boundary, s, universe)
  {
    CutIsLinked(View(st.tables), start, next, next, n);
  }

  /** An index wholly on the source's chain, plus the chain's next block. */
  lemma ExtendedIsFinal(
      cut: Index, t: Tables, highWater: int, start: nat, boundary: int, s: seq<Block>, universe: iset<Block>,
      top: nat)
    requires LinkedChain(cut, start, top) && AgreesBelow(cut, s, top)
    requires ValidChain(s) && ChainIn(s, universe) && top < |s|
    requires Valid(t) && View(t) == cut[top := s[top]] && TiersSplitAt(t, boundary)
    requires -1 <= highWater <= top + MAX_FORK_DEPTH
    requires boundary <= (if highWater < top then top else highWater) - MAX_FORK_DEPTH
    ensures MaxHeight(View(t)) == top
    ensures IsFinal(State(t, if highWater < top then top else highWater), start, s, universe)
  {
    assert top in View(t);
    assert Final(State(t, if highWater < top then top else highWater), start, top + 1, boundary, s, universe);
  }

  lemma NextBlockSavesOnTop(cut: Tables, start: nat, s: seq<Block>, universe: iset<Block>, top: nat)
    requires Valid(cut) && LinkedChain(View(cut), start, top) && AgreesBelow(View(cut), s, top)
    requires ValidChain(s) && ChainIn(s, universe) && HashDeterminesBlock(universe) && top < |s|
    ensures HashesUnique(View(cut)) && SavesOnTop(cut, s[top])
    ensures Save(View(cut), s[top]) == View(cut)[top := s[top]]
  {
    UniverseMakesHashesAgree(View(cut), s, universe);
    assert forall h :: h in View(cut) ==> View(cut)[h].hash != s[top].hash;
    assert forall h :: h in cut.stableBlocks ==> View(cut)[h] == cut.stableBlocks[h];
  }

  /** Saving the source's next block on an index wholly on its chain keeps the invariant. */
  lemma SaveKeepsFinal(
      cut: Tables, highWater: int, start: nat, boundary: int, s: seq<Block>, universe: iset<Block>, top: nat)
    requires Valid(cut) && LinkedChain(View(cut), start, top) && AgreesBelow(View(cut), s, top)
    requires ValidChain(s) && ChainIn(s, universe) && HashDeterminesBlock(universe) && top < |s|
    requires TiersSplitAt(cut, boundary) && boundary <= highWater - MAX_FORK_DEPTH
    requires -1 <= highWater <= top + MAX_FORK_DEPTH
    ensures StableGrows(cut, SaveBlock(cut, s[top])) && MaxHeight(View(SaveBlock(cut, s[top]))) == top
    ensures IsFinal(State(SaveBlock(cut, s[top]), if highWater < top then top else highWater), start, s, universe)
  {
    NextBlockSavesOnTop(cut, start, s, universe, top);
    var boundary' := SaveRefinesSave(cut, s[top], boundary);
    ExtendedIsFinal(View(cut), SaveBlock(cut, s[top]), highWater, start, boundary', s, universe, top);
  }

  lemma FoundCut(
      st: State, start: nat, next: nat, boundary: int, round: Round, universe: iset<Block>, w: WalkResult)
    returns (cut: Tables, top: nat)
    requires Final(st, start, next, boundary, round.chain, universe) && GoodRound(round, universe)
    requires HashDeterminesBlock(universe)
    requires IsWalk(View(st.tables), start, round.src, next, 0, w) && w.outcome.Found?
    ensures Valid(cut) && cut.stableBlocks == st.tables.stableBlocks && TiersSplitAt(cut, boundary)
    ensures top < |round.chain| && st.highWater <= top + MAX_FORK_DEPTH
    ensures LinkedChain(View(cut), start, top) && AgreesBelow(View(cut), round.chain, top)
    ensures cut == ResetTables(st.tables, w.resets) && w.outcome.fetched.block == round.chain[top]
  {
    cut, top := ResetTables(st.tables, w.resets), next - |w.resets|;
    RoundCut(st, start, next, boundary, round, universe, w);
    FoundBlockIsOnChain(View(st.tables), start, next, round, w, universe);
  }

  /** The state after a round that finds its block. */
  lemma FoundRound(st: State, start: nat, next: nat, boundary: int, round: Round, universe: iset<Block>, w: WalkResult)
    requires Final(st, start, next, boundary, round.chain, universe) && GoodRound(round, universe)
    requires HashDeterminesBlock(universe)
    requires IsWalk(View(st.tables), start, round.src, next, 0, w) && w.outcome.Found?
    ensures StableGrows(st.tables, TablesAfterWalk(st.tables, w))
    ensures IsFinal(Raise(st.highWater, TablesAfterWalk(st.tables, w)), start, round.chain, universe)
  {
    var cut, top := FoundCut(st, start, next, boundary, round, universe, w);
    SaveKeepsFinal(cut, st.highWater, start, boundary, round.chain, universe, top);
  }

  /** The state after a round whose walk hits a failed request. */
  lemma FailedRound(st: State, start: nat, next: nat, boundary: int, round: Round, universe: iset<Block>, w: WalkResult)
    requires Final(st, start, next, boundary, round.chain, universe) && GoodRound(round, universe)
    requires IsWalk(View(st.tables), start, round.src, next, 0, w) && !w.outcome.Found?
    ensures StableGrows(st.tables, TablesAfterWalk(st.tables, w))
    ensures IsFinal(Raise(st.highWater, TablesAfterWalk(st.tables, w)), start, round.chain, universe)
  {
    var cut := ResetTables(st.tables, w.resets);
    RoundCut(st, start, next, boundary, round, universe, w);
    CutKeepsFinal(st, start, next, boundary, round.chain, universe, cut, |w.resets|);
    UnraisedAfterCut(cut, st.highWater, start, next - |w.resets|, boundary, round.chain, universe);
  }

  lemma UnraisedAfterCut(
      cut: Tables, highWater: int, start: nat, next: nat, boundary: int, s: seq<Block>, universe: iset<Block>)
    requires Final(State(cut, highWater), start, next, boundary, s, universe)
    ensures IsFinal(Raise(highWater, cut), start, s, universe)
  {
    assert MaxHeight(View(cut)) <= highWater;
  }

  /** One import keeps the invariant, for the chain the source is now on, and stable rows stay. */
  lemma RoundKeepsFinal(st: State, start: nat, round: Round, universe: iset<Block>)
    requires IsFinal(st, start, round.chain, universe) && GoodRound(round, universe) && HashDeterminesBlock(universe)
    ensures IsFinal(ImportRound(st, start, round.src), start, round.chain, universe)
    ensures StableGrows(st.tables, ImportRound(st, start, round.src).tables)
    ensures SafeWalk(st.tables, RoundWalk(st.tables, start, round.src))
  {
    var next, boundary :| Final(st, start, next, boundary, round.chain, universe);
    NextIsAboveTheTop(View(st.tables), start, next);
    WalkShape(View(st.tables), start, round.src, next, 0);
    var w := RoundWalk(st.tables, start, round.src);
    if w.outcome.Found? {
      FoundRound(st, start, next, boundary, round, universe, w);
    } else {
      FailedRound(st, start, next, boundary, round, universe, w);
    }
    RoundIsSafe(st, start, next, boundary, round, universe);
  }

  // ---------------------------------------------------------------- whole histories

  /** A bounded reorganisation keeps the invariant, now for the new chain. */
  lemma ReorgKeepsFinal(st: State, start: nat, s: seq<Block>, s': seq<Block>, universe: iset<Block>)
    requires IsFinal(st, start, s, universe) && ReorgBounded(s, s', st.highWater)
    ensures IsFinal(st, start, s', universe)
  {
    var next, boundary :| Final(st, start, next, boundary, s, universe);
    assert Final(st, start, next, boundary, s', universe);
  }

  lemma EmptyIsFinal(start: nat, s: seq<Block>, universe: iset<Block>)
    ensures IsFinal(State(Tables(map[], map[]), -1), start, s, universe)
  {
    assert Final(State(Tables(map[], map[]), -1), start, start, -1 - MAX_FORK_DEPTH, s, universe);
  }

  lemma NextRoundIsFinal(st: State, start: nat, round: Round, s: seq<Block>, universe: iset<Block>)
    requires IsFinal(st, start, round.chain, universe) && GoodRound(round, universe) && HashDeterminesBlock(universe)
    requires ReorgBounded(round.chain, s, ImportRound(st, start, round.src).highWater)
    ensures IsFinal(ImportRound(st, start, round.src), start, round.chain, universe)
    ensures IsFinal(ImportRound(st, start, round.src), start, s, universe)
  {
    RoundKeepsFinal(st, start, round, universe);
    ReorgKeepsFinal(ImportRound(st, start, round.src), start, round.chain, s, universe);
  }

  /** Before round `k`, the invariant holds for the chain that round will be served from. */
  lemma {:induction false} FinalBeforeRound(start: nat, rounds: seq<Round>, universe: iset<Block>, k: nat)
    requires GoodHistory(start, rounds, universe) && k < |rounds|
    ensures IsFinal(StateAfter(start, rounds, k), start, rounds[k].chain, universe)
    ensures k > 0 ==> IsFinal(StateAfter(start, rounds, k), start, rounds[k - 1].chain, universe)
  {
    if k == 0 {
      EmptyIsFinal(start, rounds[0].chain, universe);
    } else {
      FinalBeforeRound(start, rounds, universe, k - 1);
      assert ChangeBounded(start, rounds, k);
      StateStep(start, rounds, k - 1);
      NextRoundIsFinal(StateAfter(start, rounds, k - 1), start, rounds[k - 1], rounds[k].chain, universe);
    }
  }

  /** Stable rows sit 51 or more below the high-water mark and are blocks of `s`. */
  ghost predicate StableAgrees(st: State, s: seq<Block>) {
    forall h :: h in st.tables.stableBlocks ==>
      h <= st.highWater - (MAX_FORK_DEPTH + 1) && h < |s| && s[h] == st.tables.stableBlocks[h]
  }

  lemma FinalStableAgrees(st: State, start: nat, s: seq<Block>, universe: iset<Block>)
    requires IsFinal(st, start, s, universe)
    ensures StableAgrees(st, s)
  {
    var next, boundary :| Final(st, start, next, boundary, s, universe);
    assert forall h :: h in st.tables.stableBlocks ==>
      h in View(st.tables) && View(st.tables)[h] == st.tables.stableBlocks[h];
  }

  /** No round exceeds the depth limit or resets below a flushed height. */
  lemma EveryRoundIsSafe(start: nat, rounds: seq<Round>, universe: iset<Block>, k: nat)
    requires GoodHistory(start, rounds, universe) && k < |rounds|
    ensures SafeWalk(StateAfter(start, rounds, k).tables,
      RoundWalk(StateAfter(start, rounds, k).tables, start, rounds[k].src))
  {
    FinalBeforeRound(start, rounds, universe, k);
    RoundKeepsFinal(StateAfter(start, rounds, k), start, rounds[k], universe);
  }

  lemma RoundKeepsStable(start: nat, rounds: seq<Round>, universe: iset<Block>, k: nat)
    requires GoodHistory(start, rounds, universe) && k < |rounds|
    ensures StableGrows(StateAfter(start, rounds, k).tables, StateAfter(start, rounds, k + 1).tables)
  {
    StateStep(start, rounds, k);
    FinalBeforeRound(start, rounds, universe, k);
    RoundKeepsFinal(StateAfter(start, rounds, k), start, rounds[k], universe);
  }

  /** Rows that stay from each state to the next stay throughout. */
  lemma {:induction false} GrowthAccumulates(ts: seq<Tables>, k: nat, j: nat)
    requires k <= j < |ts| && forall g, h :: 0 <= g < h < |ts| && h == g + 1 ==> StableGrows(ts[g], ts[h])
    ensures StableGrows(ts[k], ts[j])
    decreases j
  {
    if k < j {
      GrowthAccumulates(ts, k, j - 1);
      assert StableGrows(ts[j - 1], ts[j]);
    }
  }

  lemma StableStays(start: nat, rounds: seq<Round>, universe: iset<Block>, k: nat, j: nat)
    requires GoodHistory(start, rounds, universe) && k <= j <= |rounds|
    ensures StableGrows(StateAfter(start, rounds, k).tables, StateAfter(start, rounds, j).tables)
  {
    var ts := seq(|rounds| + 1, i requires 0 <= i <= |rounds| => StateAfter(start, rounds, i).tables);
    forall g, h | 0 <= g < h < |ts| && h == g + 1 ensures StableGrows(ts[g], ts[h]) {
      RoundKeepsStable(start, rounds, universe, g);
    }
    GrowthAccumulates(ts, k, j);
  }

  /**
   Finality: a block flushed by the time of round `k` is still there, unchanged, at every later time `j`,
   lies 51 or more below the high-water mark, and is the block the source serves in round `j`.
   */
  lemma StableIsFinal(start: nat, rounds: seq<Round>, universe: iset<Block>, k: nat, j: nat)
    requires GoodHistory(start, rounds, universe) && k <= j < |rounds|
    ensures StableGrows(StateAfter(start, rounds, k).tables, StateAfter(start, rounds, j).tables)
    ensures StableAgrees(StateAfter(start, rounds, j), rounds[j].chain)
  {
    StableStays(start, rounds, universe, k, j);
    FinalBeforeRound(start, rounds, universe, j);
    FinalStableAgrees(StateAfter(start, rounds, j), start, rounds[j].chain, universe);
  }
}
