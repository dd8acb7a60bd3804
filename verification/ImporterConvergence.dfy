/**
 The main loop over one served chain: it grows the two tiers of the index to the chain's tip, and with a stop height
 it goes on up to that height and not beyond.
 */
module ImporterConvergence {
  import opened Integers
  import opened Options
  import opened Chain
  import opened ForkWalk
  import opened BlockTables
  import opened BlockImporter
  import opened Convergence
  import Finality
  import ImporterRuns

  // ---------------------------------------------------------------- one import over the two tiers

  /** The tables are sound and hold a linked chain that leaves `s` at `c`, with every stable height below `c`. */
  ghost predicate Forks(t: Tables, start: nat, next: nat, boundary: int, s: seq<Block>, c: nat) {
    && Valid(t) && HashesUnique(View(t)) && TiersSplitAt(t, boundary) && boundary <= c
    && LinkedChain(View(t), start, next) && HashesAgree(View(t), s) && ForkPoint(View(t), start, next, s, c)
    && next - c <= MAX_FORK_DEPTH && next < |s|
  }

  ghost predicate Holds(t: Tables, start: nat, boundary: int, s: seq<Block>, c: nat) {
    && c <= |s| && Valid(t) && HashesUnique(View(t)) && TiersSplitAt(t, boundary) && boundary <= c
    && View(t) == Slice(s, start, c)
  }

  ghost predicate IsHeld(t: Tables, start: nat, s: seq<Block>, c: nat) {
    exists boundary :: Holds(t, start, boundary, s, c)
  }

  lemma CutOfTheFork(t: Tables, start: nat, next: nat, boundary: int, s: seq<Block>, c: nat, src: Source, w: WalkResult)
    requires Forks(t, start, next, boundary, s, c) && ValidChain(s) && Serves(src, s)
    requires IsWalk(View(t), start, src, next, 0, w)
    ensures |w.resets| == next - c && w.outcome.Found? && w.outcome.fetched.block == s[c]
    ensures var cut := Finality.ResetTables(t, w.resets);
      && Valid(cut) && cut.stableBlocks == t.stableBlocks && TiersSplitAt(cut, boundary)
      && View(cut) == ResetAll(View(t), w.resets) == Cut(View(t), next, next - c)
  {
    FoundAtTheFork(View(t), start, next, s, c, src, w);
    Finality.ResetsRefineTruncate(t, w.resets, next);
  }

  lemma FoundAtTheFork(ix: Index, start: nat, next: nat, s: seq<Block>, c: nat, src: Source, w: WalkResult)
    requires LinkedChain(ix, start, next) && HashesAgree(ix, s) && ForkPoint(ix, start, next, s, c)
    requires next - c <= MAX_FORK_DEPTH && next < |s| && ValidChain(s) && Serves(src, s)
    requires IsWalk(ix, start, src, next, 0, w)
    ensures |w.resets| == next - c && w.outcome.Found? && w.outcome.fetched.block == s[c]
    ensures ResetAll(ix, w.resets) == Cut(ix, next, next - c)
  {
    WalkReachesForkPoint(ix, start, next, s, src, c, w);
    AfterResets(ix, start, src, next, w, |w.resets|);
  }

  lemma SavesOnCut(cut: Tables, start: nat, s: seq<Block>, c: nat)
    requires Valid(cut) && ValidChain(s) && HashesDistinct(s) && c < |s| && View(cut) == Slice(s, start, c)
    ensures SavesOnTop(cut, s[c]) && HashesUnique(View(cut))
  {
    assert forall h :: h in cut.stableBlocks ==> h in View(cut);
    forall h | h in cut.stableBlocks ensures cut.stableBlocks[h].hash != s[c].hash {
      StableIsSeen(cut, h);
    }
  }

  lemma StableIsSeen(t: Tables, h: nat)
    requires h in t.stableBlocks && (h in t.newBlocks ==> t.newBlocks[h] == t.stableBlocks[h])
    ensures h in View(t) && View(t)[h] == t.stableBlocks[h]
  {
  }

  lemma CutIsSlice(ix: Index, start: nat, next: nat, s: seq<Block>, c: nat)
    requires LinkedChain(ix, start, next) && ForkPoint(ix, start, next, s, c)
    ensures Cut(ix, next, next - c) == Slice(s, start, c)
  {
  }

  /** One import over the two tiers leaves exactly the chain through the fork point. */
  lemma ImportReachesFork(t: Tables, start: nat, next: nat, boundary: int, s: seq<Block>, c: nat, src: Source)
    requires Forks(t, start, next, boundary, s, c) && ValidChain(s) && HashesDistinct(s) && Serves(src, s)
    ensures NextHeight(View(t), start) == next && !Finality.RoundWalk(t, start, src).outcome.DepthExceeded?
    ensures IsHeld(Finality.TablesAfterWalk(t, Finality.RoundWalk(t, start, src)), start, s, c + 1)
  {
    NextIsAboveTheTop(View(t), start, next);
    WalkShape(View(t), start, src, next, 0);
    var w := Finality.RoundWalk(t, start, src);
    CutOfTheFork(t, start, next, boundary, s, c, src, w);
    CutIsSlice(View(t), start, next, s, c);
    SaveExtends(Finality.ResetTables(t, w.resets), start, boundary, s, c);
  }

  lemma SaveOnSlice(s: seq<Block>, start: nat, c: nat)
    requires ValidChain(s) && HashesDistinct(s) && start <= c < |s|
    ensures ForkWalk.Save(Slice(s, start, c), s[c]) == Slice(s, start, c + 1) && HashesUnique(Slice(s, start, c + 1))
  {
  }

  lemma SaveExtends(cut: Tables, start: nat, boundary: int, s: seq<Block>, c: nat)
    requires Valid(cut) && TiersSplitAt(cut, boundary) && boundary <= c < |s| && start <= c
    requires View(cut) == Slice(s, start, c) && ValidChain(s) && HashesDistinct(s)
    ensures IsHeld(SaveBlock(cut, s[c]), start, s, c + 1)
  {
    SavesOnCut(cut, start, s, c);
    var boundary' := SaveRefinesSave(cut, s[c], boundary);
    SaveOnSlice(s, start, c);
    assert Holds(SaveBlock(cut, s[c]), start, boundary', s, c + 1);
  }

  lemma HoldsForks(t: Tables, start: nat, boundary: int, s: seq<Block>, c: nat)
    requires Holds(t, start, boundary, s, c) && ValidChain(s) && HashesDistinct(s) && start <= c < |s|
    ensures Forks(t, start, c, boundary, s, c)
  {
    SliceIsLinked(s, start, c);
  }

  // ---------------------------------------------------------------- the main loop

  /** Whatever the polls of a turn answer, it is the height of the tip. */
  predicate Reports(polls: seq<Poll>, tip: int) {
    forall i :: 0 <= i < |polls| ==> polls[i] == Some(tip)
  }

  ghost predicate TurnsServe(turns: seq<Turn>, s: seq<Block>) {
    forall i :: 0 <= i < |turns| ==> Serves(turns[i].src, s) && Reports(turns[i].polls, |s| - 1)
  }

  lemma TopOfSlice(ix: Index, s: seq<Block>, start: nat, c: nat)
    requires start < c <= |s| && ix == Slice(s, start, c)
    ensures MaxHeight(ix) == c - 1
  {
    assert c - 1 in ix;
  }

  /** The turn knows of the tip, from before or from its polls. */
  lemma KnowsTheTip(s: LoopState, turn: Turn, tip: int)
    requires Reports(turn.polls, tip) && MaxHeight(View(s.db.blocks)) < tip
    requires (s.maxChainHeight == tip != 0) || (s.maxChainHeight == 0 && turn.polls != [])
    ensures Polled(s, turn.polls).1.Ready? && Polled(s, turn.polls).0 == tip
  {
    var dbHeight := MaxHeight(View(s.db.blocks));
    PollingEnds(s.maxChainHeight, dbHeight, turn.polls);
    if s.maxChainHeight == 0 {
      assert FirstAhead(turn.polls, 0, dbHeight);
    }
  }

  /** A turn at the tip goes on polling. */
  lemma WaitsAtTheTip(s: LoopState, start: nat, turn: Turn, tip: int)
    requires Reports(turn.polls, tip) && MaxHeight(View(s.db.blocks)) == tip && s.maxChainHeight == tip
    ensures Polled(s, turn.polls).1.StillPolling? && AfterTurn(s, start, turn).db == s.db
    ensures AfterTurn(s, start, turn).shouldRun == s.shouldRun
  {
    PollingEnds(s.maxChainHeight, tip, turn.polls);
    TurnIsRound(s, start, turn);
  }

  lemma TurnReachesFork(
      s: LoopState, start: nat, next: nat, boundary: int, chain: seq<Block>, c: nat, turn: Turn, s': LoopState)
    requires s' == AfterTurn(s, start, turn)
    requires Forks(s.db.blocks, start, next, boundary, chain, c) && ValidChain(chain) && HashesDistinct(chain)
    requires Serves(turn.src, chain) && Reports(turn.polls, |chain| - 1) && s.shouldRun
    requires (s.maxChainHeight == |chain| - 1 != 0) || (s.maxChainHeight == 0 && turn.polls != [])
    ensures !Polled(s, turn.polls).1.StillPolling?
    ensures s'.shouldRun && s'.maxChainHeight == |chain| - 1 && s'.nextHeight == next
    ensures IsHeld(s'.db.blocks, start, chain, c + 1)
  {
    NextIsAboveTheTop(View(s.db.blocks), start, next);
    NextTopsTheIndex(View(s.db.blocks), start, next);
    KnowsTheTip(s, turn, |chain| - 1);
    TurnIsRound(s, start, turn);
    TurnImports(s, start, turn);
    ImportReachesFork(s.db.blocks, start, next, boundary, chain, c, turn.src);
  }

  lemma NextTopsTheIndex(ix: Index, start: nat, next: nat)
    requires NextHeight(ix, start) == next
    ensures MaxHeight(ix) < next
  {
  }

  // ---------------------------------------------------------------- runs turn by turn

  /** The loop has not reached its stop height. */
  predicate Below(nextHeight: int, stop: Option<int>) {
    stop.None? || nextHeight < stop.value
  }

  /** What holds of the loop once `c` blocks are counted. */
  type Progress = (LoopState, nat) -> bool

  /** Below the end each of the turns makes one step; at the end it stops or goes on polling. */
  ghost predicate StepByStep(progress: Progress, start: nat, stop: Option<int>, turns: seq<Turn>, end: nat) {
    forall s: LoopState, c: nat, turn: Turn {:trigger TurnProgresses(progress, start, stop, s, c, turn, end)} ::
      turn in turns && c <= end && progress(s, c) ==> TurnProgresses(progress, start, stop, s, c, turn, end)
  }

  ghost predicate TurnProgresses(
      progress: Progress, start: nat, stop: Option<int>, s: LoopState, c: nat, turn: Turn, end: nat)
  {
    var polling, s' := Polled(s, turn.polls).1.StillPolling?, AfterTurn(s, start, turn);
    && s.shouldRun
    && if c < end then Below(s.nextHeight, stop) && !polling && s'.shouldRun && progress(s', c + 1)
       else Below(s.nextHeight, stop) ==> polling && s'.shouldRun && s'.db == s.db
  }

  /** The loop has left the database at `t`; with turns to spare it has been stopped there, if at the stop height. */
  ghost predicate LeftAt(s: LoopState, t: LoopState, stop: Option<int>, spare: bool) {
    s.db == t.db && s.shouldRun == (!spare || Below(t.nextHeight, stop))
  }

  lemma FirstProgresses(
      progress: Progress, start: nat, stop: Option<int>, s: LoopState, c: nat, turns: seq<Turn>, end: nat)
    requires StepByStep(progress, start, stop, turns, end) && c <= end && progress(s, c) && turns != []
    ensures c == end ==> LeftAt(AfterTurns(s, start, stop, turns), s, stop, true)
    ensures c < end ==> AfterTurn(s, start, turns[0]).shouldRun && progress(AfterTurn(s, start, turns[0]), c + 1)
    ensures c < end ==>
      AfterTurns(s, start, stop, turns) == AfterTurns(AfterTurn(s, start, turns[0]), start, stop, turns[1..])
  {
    assert TurnProgresses(progress, start, stop, s, c, turns[0], end);
  }

  lemma RestIsStepByStep(progress: Progress, start: nat, stop: Option<int>, turns: seq<Turn>, end: nat)
    requires StepByStep(progress, start, stop, turns, end) && turns != []
    ensures StepByStep(progress, start, stop, turns[1..], end)
  {
    assert forall turn :: turn in turns[1..] ==> turn in turns;
  }

  lemma {:induction false} RunProgresses(
      progress: Progress, start: nat, stop: Option<int>, s: LoopState, c: nat, turns: seq<Turn>, end: nat,
      s': LoopState)
    returns (t: LoopState)
    requires StepByStep(progress, start, stop, turns, end) && c <= end && progress(s, c) && s.shouldRun
    requires s' == AfterTurns(s, start, stop, turns)
    ensures progress(t, Min(c + |turns|, end)) && LeftAt(s', t, stop, c + |turns| > end)
    decreases |turns|
  {
    t := s;
    if turns != [] {
      FirstProgresses(progress, start, stop, s, c, turns, end);
      if c < end {
        RestIsStepByStep(progress, start, stop, turns, end);
        t := RunProgresses(progress, start, stop, AfterTurn(s, start, turns[0]), c + 1, turns[1..], end, s');
      }
    }
  }

  // ---------------------------------------------------------------- convergence

  /** The height above the last block that the loop ever imports. */
  function End(chain: seq<Block>, stop: Option<int>): nat {
    if stop.Some? && stop.value < |chain| - 1 then if stop.value < 0 then 0 else stop.value + 1 else |chain|
  }

  /**
   The index is the chain from the start height up to `c`, the importer knows the tip, and stops above the stop
   height.
   */
  ghost predicate Grown(s: LoopState, start: nat, stop: Option<int>, chain: seq<Block>, c: nat) {
    && s.shouldRun && s.maxChainHeight == |chain| - 1 && start < c
    && (Below(s.nextHeight, stop) <==> Below(c - 1, stop))
    && IsHeld(s.db.blocks, start, chain, c)
  }

  lemma GrownIsSlice(s: LoopState, start: nat, stop: Option<int>, chain: seq<Block>, c: nat)
    requires Grown(s, start, stop, chain, c)
    ensures c <= |chain| && View(s.db.blocks) == Slice(chain, start, c)
    ensures Below(s.nextHeight, stop) <==> Below(c - 1, stop)
  {
  }

  lemma GrownTurn(
      s: LoopState, start: nat, stop: Option<int>, chain: seq<Block>, c: nat, turn: Turn, s': LoopState)
    requires s' == AfterTurn(s, start, turn)
    requires Grown(s, start, stop, chain, c) && ValidChain(chain) && HashesDistinct(chain) && c < |chain|
    requires Serves(turn.src, chain) && Reports(turn.polls, |chain| - 1)
    ensures !Polled(s, turn.polls).1.StillPolling? && Grown(s', start, stop, chain, c + 1)
  {
    var boundary :| Holds(s.db.blocks, start, boundary, chain, c);
    TopOfSlice(View(s.db.blocks), chain, start, c);
    HoldsForks(s.db.blocks, start, boundary, chain, c);
    TurnReachesFork(s, start, c, boundary, chain, c, turn, s');
  }

  lemma GrownWaits(s: LoopState, start: nat, stop: Option<int>, chain: seq<Block>, turn: Turn)
    requires Grown(s, start, stop, chain, |chain|) && Reports(turn.polls, |chain| - 1)
    ensures Polled(s, turn.polls).1.StillPolling?
    ensures AfterTurn(s, start, turn).db == s.db && AfterTurn(s, start, turn).shouldRun
  {
    GrownIsSlice(s, start, stop, chain, |chain|);
    TopOfSlice(View(s.db.blocks), chain, start, |chain|);
    WaitsAtTheTip(s, start, turn, |chain| - 1);
  }

  lemma GrownProgresses(
      progress: Progress, s: LoopState, start: nat, stop: Option<int>, chain: seq<Block>, c: nat, turn: Turn, end: nat)
    requires forall s, c :: progress(s, c) <==> Grown(s, start, stop, chain, c)
    requires progress(s, c) && ValidChain(chain) && HashesDistinct(chain) && c <= end == End(chain, stop)
    requires Serves(turn.src, chain) && Reports(turn.polls, |chain| - 1)
    ensures TurnProgresses(progress, start, stop, s, c, turn, end)
  {
    if c < |chain| {
      GrownTurn(s, start, stop, chain, c, turn, AfterTurn(s, start, turn));
    } else {
      GrownWaits(s, start, stop, chain, turn);
    }
  }

  /** From a prefix of the chain, with its tip known, every turn adds one block until the end. */
  lemma PrefixGrows(
      s: LoopState, start: nat, stop: Option<int>, chain: seq<Block>, c: nat, turns: seq<Turn>, s': LoopState,
      reached: nat)
    requires Grown(s, start, stop, chain, c) && ValidChain(chain) && HashesDistinct(chain) && c <= End(chain, stop)
    requires TurnsServe(turns, chain) && s' == AfterTurns(s, start, stop, turns)
    requires reached == Min(c + |turns|, End(chain, stop))
    ensures View(s'.db.blocks) == Slice(chain, start, reached)
    ensures s'.shouldRun <==> c + |turns| <= End(chain, stop) || Below(|chain| - 1, stop)
  {
    var progress: Progress := (s: LoopState, c: nat) => Grown(s, start, stop, chain, c);
    var end := End(chain, stop);
    forall s: LoopState, c: nat, turn: Turn | turn in turns && c <= end && progress(s, c)
      ensures TurnProgresses(progress, start, stop, s, c, turn, end)
    {
      var i :| 0 <= i < |turns| && turns[i] == turn;
      GrownProgresses(progress, s, start, stop, chain, c, turn, end);
    }
    var t := RunProgresses(progress, start, stop, s, c, turns, end, s');
    GrownIsSlice(t, start, stop, chain, reached);
  }

  /** The loop has been started, with a fork at `c`, and its first turn polls. */
  ghost predicate Starts(
      s: LoopState, start: nat, stop: Option<int>, next: nat, boundary: int, chain: seq<Block>, c: nat,
      turns: seq<Turn>)
  {
    && Forks(s.db.blocks, start, next, boundary, chain, c) && ValidChain(chain) && HashesDistinct(chain)
    && s.shouldRun && s.maxChainHeight == 0 && Below(s.nextHeight, stop) && Below(next, stop)
    && turns != [] && turns[0].polls != [] && TurnsServe(turns, chain)
  }

  /**
   Convergence of the main loop: from sound tables whose index forks at most 50 back from the served chain, above the
   stable tier, the first turn makes the index a prefix of the chain and each later one adds a block, up to and
   including the tip or the stop height. One poll that reports the tip is enough; later turns need not poll until they
   have reached it. A turn after the stop height is reached clears `shouldRun`; nothing else does.
   */
  lemma MainLoopConverges(
      s: LoopState, start: nat, stop: Option<int>, next: nat, boundary: int, chain: seq<Block>, c: nat,
      turns: seq<Turn>, s': LoopState)
    requires Starts(s, start, stop, next, boundary, chain, c, turns) && s' == AfterTurns(s, start, stop, turns)
    ensures View(s'.db.blocks) == Slice(chain, start, Min(c + |turns|, End(chain, stop)))
    ensures s'.shouldRun <==> c + |turns| <= End(chain, stop) || Below(|chain| - 1, stop)
  {
    var first := AfterTurn(s, start, turns[0]);
    TurnReachesFork(s, start, next, boundary, chain, c, turns[0], first);
    PrefixGrows(first, start, stop, chain, c + 1, turns[1..], s', Min(c + |turns|, End(chain, stop)));
  }

  /** A fresh importer over an empty database takes the chain in from the start height, one block a turn. */
  lemma FreshImporterConverges(
      s: LoopState, start: nat, stop: Option<int>, chain: seq<Block>, turns: seq<Turn>, s': LoopState)
    requires ImporterRuns.Fresh(s) && s.maxChainHeight == 0 && s.nextHeight == -1 && Below(start, stop)
    requires ValidChain(chain) && HashesDistinct(chain) && start < |chain|
    requires turns != [] && turns[0].polls != [] && TurnsServe(turns, chain) && s' == AfterTurns(s, start, stop, turns)
    ensures View(s'.db.blocks) == Slice(chain, start, Min(start + |turns|, End(chain, stop)))
  {
    assert Forks(s.db.blocks, start, start, start, chain, start);
    MainLoopConverges(s, start, stop, start, start, chain, start, turns, s');
  }

  // ---------------------------------------------------------------- the stop height

  predicate UpTo(t: Tables, top: int) {
    (forall h :: h in t.newBlocks ==> h <= top) && (forall h :: h in t.stableBlocks ==> h <= top)
  }

  lemma {:induction false} ResetsStayUpTo(t: Tables, resets: seq<int>, top: int)
    requires UpTo(t, top)
    ensures UpTo(Finality.ResetTables(t, resets), top)
    decreases |resets|
  {
    if resets != [] {
      ResetsStayUpTo(Reset(t, resets[0]), resets[1..], top);
    }
  }

  lemma ImportStaysUpTo(t: Tables, start: nat, src: Source, top: int)
    requires UpTo(t, top) && CarriesHeight(src) && NextHeight(View(t), start) <= top
    ensures UpTo(Finality.TablesAfterWalk(t, Finality.RoundWalk(t, start, src)), top)
  {
    var w := Finality.RoundWalk(t, start, src);
    WalkShape(View(t), start, src, NextHeight(View(t), start), 0);
    ResetsStayUpTo(t, w.resets, top);
  }

  /** While the loop may go on, the index is below the stop height. */
  ghost predicate WithinStop(s: LoopState, stop: int) {
    s.nextHeight <= stop && UpTo(s.db.blocks, if s.nextHeight < stop then stop - 1 else stop)
  }

  lemma TurnStaysWithin(s: LoopState, start: nat, stop: int, turn: Turn)
    requires WithinStop(s, stop) && s.nextHeight < stop && start <= stop && CarriesHeight(turn.src)
    ensures WithinStop(AfterTurn(s, start, turn), stop)
  {
    TurnIsRound(s, start, turn);
    if Polled(s, turn.polls).1.Ready? {
      TurnImports(s, start, turn);
      var next := NextHeight(View(s.db.blocks), start);
      assert next <= stop;
      ImportStaysUpTo(s.db.blocks, start, turn.src, if next < stop then stop - 1 else stop);
    }
  }

  lemma {:induction false} RunStaysWithin(s: LoopState, start: nat, stop: int, turns: seq<Turn>)
    requires WithinStop(s, stop) && start <= stop && forall i :: 0 <= i < |turns| ==> CarriesHeight(turns[i].src)
    ensures WithinStop(AfterTurns(s, start, Some(stop), turns), stop)
    decreases |turns|
  {
    if turns != [] && s.shouldRun && s.nextHeight < stop {
      TurnStaysWithin(s, start, stop, turns[0]);
      if !Polled(s, turns[0].polls).1.StillPolling? {
        RunStaysWithin(AfterTurn(s, start, turns[0]), start, stop, turns[1..]);
      }
    }
  }

  /** Whatever the source answers, a run that starts below its stop height indexes nothing above it. */
  lemma NothingAboveTheStopHeight(s: LoopState, start: nat, stop: int, turns: seq<Turn>)
    requires s.nextHeight < stop && MaxHeight(View(s.db.blocks)) < stop && start <= stop
    requires forall i :: 0 <= i < |turns| ==> CarriesHeight(turns[i].src)
    ensures MaxHeight(View(AfterTurns(s, start, Some(stop), turns).db.blocks)) <= stop
    ensures AfterTurns(s, start, Some(stop), turns).nextHeight <= stop
  {
    assert forall h :: h in s.db.blocks.newBlocks || h in s.db.blocks.stableBlocks ==> h in View(s.db.blocks);
    RunStaysWithin(s, start, stop, turns);
  }
}
