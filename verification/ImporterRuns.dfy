/**
 Whole runs of the importer's main loop against a reorganising source: the turns that import are a history of the
 finality argument, so what holds of every such history holds of the importer.
 */
module ImporterRuns {
  import opened Options
  import opened Chain
  import opened ForkWalk
  import opened BlockTables
  import opened BlockImporter
  import opened Finality
  import Sequences
  import TxConservation

  /** What `start` does with a list of turns: nothing, end at the stop height, or take the next one. */
  predicate Idle(s: LoopState, stop: Option<int>, turns: seq<Turn>) {
    turns == [] || !s.shouldRun || (stop.Some? && s.nextHeight >= stop.value)
  }

  ghost predicate Imports(s: LoopState, turn: Turn) {
    Polled(s, turn.polls).1.Ready?
  }

  /** The rounds that a run makes; turn `i` is served from `chains[i]`. */
  ghost function Rounds(
      s: LoopState, start: nat, stop: Option<int>, turns: seq<Turn>, chains: seq<seq<Block>>): seq<Round>
    requires |chains| == |turns|
    decreases |turns|
  {
    if Idle(s, stop, turns) || Polled(s, turns[0].polls).1.StillPolling? then []
    else
      var rest := Rounds(AfterTurn(s, start, turns[0]), start, stop, turns[1..], chains[1..]);
      if Imports(s, turns[0]) then [Round(chains[0], turns[0].src)] + rest else rest
  }

  /** The high-water mark after a turn. */
  ghost function Mark(highWater: int, s: LoopState, start: nat, turn: Turn): int {
    if Imports(s, turn) then Raise(highWater, AfterTurn(s, start, turn).db.blocks).highWater else highWater
  }

  /** Each turn of the run is served from a valid chain, and from turn to turn only the top 50 heights change. */
  ghost predicate Bounded(
      s: LoopState, highWater: int, start: nat, stop: Option<int>, turns: seq<Turn>, chains: seq<seq<Block>>,
      universe: iset<Block>)
    requires |chains| == |turns|
    decreases |turns|
  {
    Idle(s, stop, turns) || (
      var s', highWater' := AfterTurn(s, start, turns[0]), Mark(highWater, s, start, turns[0]);
      && GoodRound(Round(chains[0], turns[0].src), universe)
      && (|turns| > 1 ==> ReorgBounded(chains[0], chains[1], highWater'))
      && Bounded(s', highWater', start, stop, turns[1..], chains[1..], universe))
  }

  // ---------------------------------------------------------------- histories grow by a round

  /** The chain `s` is at most a bounded reorganisation away from the last round's. */
  ghost predicate Continues(start: nat, rounds: seq<Round>, s: seq<Block>) {
    rounds != [] ==> ReorgBounded(rounds[|rounds| - 1].chain, s, After(start, rounds).highWater)
  }

  lemma GrownHistoryIsGood(start: nat, rounds: seq<Round>, round: Round, universe: iset<Block>)
    requires GoodHistory(start, rounds, universe) && GoodRound(round, universe) && Continues(start, rounds, round.chain)
    ensures GoodHistory(start, rounds + [round], universe)
  {
    var all := rounds + [round];
    forall k: nat | 0 < k < |all| ensures ChangeBounded(start, all, k) {
      assert all[..k] == rounds[..k];
      assert k == |rounds| ==> rounds[..k] == rounds;
      assert k < |rounds| ==> ChangeBounded(start, rounds, k);
    }
  }

  lemma AddRound(start: nat, rounds: seq<Round>, round: Round, universe: iset<Block>)
    requires GoodHistory(start, rounds, universe) && GoodRound(round, universe) && Continues(start, rounds, round.chain)
    ensures GoodHistory(start, rounds + [round], universe)
    ensures After(start, rounds + [round]) == ImportRound(After(start, rounds), start, round.src)
    ensures SafeWalk(After(start, rounds).tables, RoundWalk(After(start, rounds).tables, start, round.src))
  {
    GrownHistoryIsGood(start, rounds, round, universe);
    assert (rounds + [round])[..|rounds|] == rounds;
    EveryRoundIsSafe(start, rounds + [round], universe, |rounds|);
  }

  // ---------------------------------------------------------------- one turn

  /** The loop has reached the tables of the history, and has not been stopped. */
  ghost predicate Follows(s: LoopState, start: nat, rounds: seq<Round>, universe: iset<Block>) {
    GoodHistory(start, rounds, universe) && s.db.blocks == After(start, rounds).tables && s.shouldRun
  }

  lemma ImportingTurn(s: LoopState, start: nat, rounds: seq<Round>, turn: Turn, s': seq<Block>, universe: iset<Block>)
    returns (round: Round)
    requires Follows(s, start, rounds, universe) && Imports(s, turn)
    requires GoodRound(Round(s', turn.src), universe) && Continues(start, rounds, s')
    ensures round == Round(s', turn.src) && Follows(AfterTurn(s, start, turn), start, rounds + [round], universe)
    ensures After(start, rounds + [round]).highWater == Mark(After(start, rounds).highWater, s, start, turn)
  {
    round := Round(s', turn.src);
    AddRound(start, rounds, round, universe);
    TurnIsRound(s, start, turn);
  }

  lemma BoundsCompose(s: seq<Block>, s': seq<Block>, s'': seq<Block>, highWater: int)
    requires ReorgBounded(s, s', highWater) && ReorgBounded(s', s'', highWater)
    ensures ReorgBounded(s, s'', highWater)
  {
  }

  lemma OtherTurn(s: LoopState, start: nat, rounds: seq<Round>, turn: Turn, universe: iset<Block>)
    requires Follows(s, start, rounds, universe) && !Imports(s, turn)
    ensures Follows(AfterTurn(s, start, turn), start, rounds, universe)
  {
    TurnIsRound(s, start, turn);
  }

  // ---------------------------------------------------------------- whole runs

  /** A run of `turns` is to come after `rounds`. */
  ghost predicate Underway(
      s: LoopState, start: nat, stop: Option<int>, turns: seq<Turn>, chains: seq<seq<Block>>, rounds: seq<Round>,
      universe: iset<Block>)
  {
    && |chains| == |turns| && Follows(s, start, rounds, universe)
    && (turns != [] ==> Continues(start, rounds, chains[0]))
    && Bounded(s, After(start, rounds).highWater, start, stop, turns, chains, universe)
  }

  lemma TakeImportingTurn(
      s: LoopState, start: nat, stop: Option<int>, turns: seq<Turn>, chains: seq<seq<Block>>, rounds: seq<Round>,
      universe: iset<Block>)
    requires Underway(s, start, stop, turns, chains, rounds, universe) && !Idle(s, stop, turns) && Imports(s, turns[0])
    ensures var rounds' := rounds + [Round(chains[0], turns[0].src)];
      Underway(AfterTurn(s, start, turns[0]), start, stop, turns[1..], chains[1..], rounds', universe)
  {
    var round := ImportingTurn(s, start, rounds, turns[0], chains[0], universe);
  }

  lemma TakeOtherTurn(
      s: LoopState, start: nat, stop: Option<int>, turns: seq<Turn>, chains: seq<seq<Block>>, rounds: seq<Round>,
      universe: iset<Block>)
    requires Underway(s, start, stop, turns, chains, rounds, universe) && !Idle(s, stop, turns) && !Imports(s, turns[0])
    ensures Underway(AfterTurn(s, start, turns[0]), start, stop, turns[1..], chains[1..], rounds, universe)
  {
    OtherTurn(s, start, rounds, turns[0], universe);
    if |turns| > 1 && rounds != [] {
      BoundsCompose(rounds[|rounds| - 1].chain, chains[0], chains[1], After(start, rounds).highWater);
    }
  }

  /** The rounds of one turn. */
  ghost function RoundsOf(s: LoopState, turn: Turn, chain: seq<Block>): seq<Round> {
    if Imports(s, turn) then [Round(chain, turn.src)] else []
  }

  lemma RoundsUnfold(s: LoopState, start: nat, stop: Option<int>, turns: seq<Turn>, chains: seq<seq<Block>>)
    requires |chains| == |turns| && !Idle(s, stop, turns)
    ensures Rounds(s, start, stop, turns, chains)
      == if Polled(s, turns[0].polls).1.StillPolling? then []
         else
           RoundsOf(s, turns[0], chains[0])
           + Rounds(AfterTurn(s, start, turns[0]), start, stop, turns[1..], chains[1..])
  {
  }

  lemma RunUnfolds(s: LoopState, start: nat, stop: Option<int>, turns: seq<Turn>)
    requires !Idle(s, stop, turns)
    ensures var polling, s' := Polled(s, turns[0].polls).1.StillPolling?, AfterTurn(s, start, turns[0]);
      AfterTurns(s, start, stop, turns) == if polling then s' else AfterTurns(s', start, stop, turns[1..])
  {
  }

  lemma TakeOne(
      s: LoopState, start: nat, stop: Option<int>, turns: seq<Turn>, chains: seq<seq<Block>>, rounds: seq<Round>,
      universe: iset<Block>)
    requires Underway(s, start, stop, turns, chains, rounds, universe) && !Idle(s, stop, turns)
    ensures Underway(AfterTurn(s, start, turns[0]), start, stop, turns[1..], chains[1..],
                     rounds + RoundsOf(s, turns[0], chains[0]), universe)
  {
    if Imports(s, turns[0]) {
      TakeImportingTurn(s, start, stop, turns, chains, rounds, universe);
    } else {
      assert rounds + [] == rounds;
      TakeOtherTurn(s, start, stop, turns, chains, rounds, universe);
    }
  }

  /** The tables are those of the history, and if the loop was stopped it was at the stop height. */
  ghost predicate EndsAs(s: LoopState, start: nat, stop: Option<int>, rounds: seq<Round>, universe: iset<Block>) {
    && GoodHistory(start, rounds, universe) && s.db.blocks == After(start, rounds).tables
    && (s.shouldRun || (stop.Some? && s.nextHeight >= stop.value))
  }

  lemma {:induction false} RunFollows(
      s: LoopState, start: nat, stop: Option<int>, turns: seq<Turn>, chains: seq<seq<Block>>, rounds: seq<Round>,
      universe: iset<Block>)
    requires Underway(s, start, stop, turns, chains, rounds, universe)
    ensures var all := rounds + Rounds(s, start, stop, turns, chains);
      EndsAs(AfterTurns(s, start, stop, turns), start, stop, all, universe)
    decreases |turns|
  {
    if Idle(s, stop, turns) {
      assert rounds + [] == rounds;
    } else {
      var s', more := AfterTurn(s, start, turns[0]), RoundsOf(s, turns[0], chains[0]);
      TakeOne(s, start, stop, turns, chains, rounds, universe);
      RunUnfolds(s, start, stop, turns);
      RoundsUnfold(s, start, stop, turns, chains);
      if Polled(s, turns[0].polls).1.StillPolling? {
        assert rounds + more == rounds + [];
      } else {
        RunFollows(s', start, stop, turns[1..], chains[1..], rounds + more, universe);
        Sequences.Regroup(rounds, more, Rounds(s', start, stop, turns[1..], chains[1..]));
      }
    }
  }

  /** A fresh importer over an empty database when `start` has set its flag. */
  predicate Fresh(s: LoopState) {
    s.db == TxConservation.EMPTY_DB && s.shouldRun
  }

  /** A run against a source that reorganises within the bound is a history of the finality argument. */
  lemma RunIsHistory(
      s: LoopState, start: nat, stop: Option<int>, turns: seq<Turn>, chains: seq<seq<Block>>, universe: iset<Block>)
    requires Fresh(s) && HashDeterminesBlock(universe) && |chains| == |turns|
    requires Bounded(s, -1, start, stop, turns, chains, universe)
    ensures var rounds := Rounds(s, start, stop, turns, chains);
      GoodHistory(start, rounds, universe) && AfterTurns(s, start, stop, turns).db.blocks == After(start, rounds).tables
  {
    RunFollows(s, start, stop, turns, chains, [], universe);
    assert [] + Rounds(s, start, stop, turns, chains) == Rounds(s, start, stop, turns, chains);
  }

  /** Such a run never gives up on depth: only the stop height ends it. */
  lemma OnlyTheStopHeightEndsIt(
      s: LoopState, start: nat, stop: Option<int>, turns: seq<Turn>, chains: seq<seq<Block>>, universe: iset<Block>)
    requires Fresh(s) && HashDeterminesBlock(universe) && |chains| == |turns|
    requires Bounded(s, -1, start, stop, turns, chains, universe)
    ensures var s' := AfterTurns(s, start, stop, turns); s'.shouldRun || (stop.Some? && s'.nextHeight >= stop.value)
  {
    RunFollows(s, start, stop, turns, chains, [], universe);
  }

  /**
   After such a run every stable row is the block of the chain that the last import was served from, 51 or more down.
   */
  lemma StableRowsAreTheSources(
      s: LoopState, start: nat, stop: Option<int>, turns: seq<Turn>, chains: seq<seq<Block>>, universe: iset<Block>)
    requires Fresh(s) && HashDeterminesBlock(universe) && |chains| == |turns|
    requires Bounded(s, -1, start, stop, turns, chains, universe)
    ensures var rounds := Rounds(s, start, stop, turns, chains);
      var stable := AfterTurns(s, start, stop, turns).db.blocks.stableBlocks;
      if rounds == [] then stable == map[]
      else forall h :: h in stable ==>
        var s := rounds[|rounds| - 1].chain;
        h <= After(start, rounds).highWater - (MAX_FORK_DEPTH + 1) && h < |s| && s[h] == stable[h]
  {
    RunIsHistory(s, start, stop, turns, chains, universe);
    var rounds := Rounds(s, start, stop, turns, chains);
    if rounds != [] {
      var k, last := |rounds| - 1, rounds[|rounds| - 1];
      FinalBeforeRound(start, rounds, universe, k);
      RoundKeepsFinal(StateAfter(start, rounds, k), start, last, universe);
      FinalStableAgrees(After(start, rounds), start, last.chain, universe);
    }
  }

  // ---------------------------------------------------------------- a source no taller than the index

  ghost predicate AllUpTo(polls: seq<Poll>, height: int) {
    forall i :: 0 <= i < |polls| && polls[i].Some? ==> polls[i].value <= height
  }

  lemma {:induction false} ShortPollsAreNeverReady(maxChainHeight: int, dbHeight: int, polls: seq<Poll>)
    requires dbHeight >= -1 && maxChainHeight <= dbHeight && AllUpTo(polls, dbHeight)
    ensures var (m, next) := PollUntilAhead(maxChainHeight, dbHeight, polls); m <= dbHeight && !next.Ready?
    decreases |polls|
  {
    if polls != [] && polls[0].Some? {
      assert AllUpTo(polls[1..], dbHeight);
      ShortPollsAreNeverReady(polls[0].value, dbHeight, polls[1..]);
    }
  }

  /** The greatest height reported so far is unknown or not above the index. */
  ghost predicate NotAhead(s: LoopState) {
    s.maxChainHeight == 0 || s.maxChainHeight <= MaxHeight(View(s.db.blocks))
  }

  lemma ShortTurn(s: LoopState, start: nat, turn: Turn)
    requires NotAhead(s) && AllUpTo(turn.polls, MaxHeight(View(s.db.blocks)))
    ensures var s' := AfterTurn(s, start, turn); s'.db == s.db && NotAhead(s') && s'.shouldRun == s.shouldRun
  {
    var top := MaxHeight(View(s.db.blocks));
    if s.maxChainHeight != 0 {
      ShortPollsAreNeverReady(s.maxChainHeight, top, turn.polls);
    } else if turn.polls != [] && turn.polls[0].Some? {
      assert AllUpTo(turn.polls[1..], top);
      ShortPollsAreNeverReady(turn.polls[0].value, top, turn.polls[1..]);
    }
  }

  /** While the source reports no height above the index, nothing is imported and no fork is resolved, for any turns. */
  lemma {:induction false} ShortChainIsWaitedFor(s: LoopState, start: nat, stop: Option<int>, turns: seq<Turn>)
    requires NotAhead(s) && forall i :: 0 <= i < |turns| ==> AllUpTo(turns[i].polls, MaxHeight(View(s.db.blocks)))
    ensures AfterTurns(s, start, stop, turns).db == s.db
    decreases |turns|
  {
    if !Idle(s, stop, turns) {
      ShortTurn(s, start, turns[0]);
      if !Polled(s, turns[0].polls).1.StillPolling? {
        ShortChainIsWaitedFor(AfterTurn(s, start, turns[0]), start, stop, turns[1..]);
      }
    }
  }
}
