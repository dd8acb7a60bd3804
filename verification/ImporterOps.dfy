/**
 The database operations that runs of the importer make, interleaved with late transactions: they are the operations
 of the conservation argument, so what it says of every such run holds of the importer.
 */
module ImporterOps {
  import opened Options
  import opened Chain
  import opened ForkWalk
  import opened BlockTables
  import opened TxTables
  import opened BlockImporter
  import opened Finality
  import opened ImporterRuns
  import TxConservation

  type Op = TxConservation.Op

  // ---------------------------------------------------------------- what a run does to the database

  function ResetOps(resets: seq<int>): (ops: seq<Op>)
    ensures |ops| == |resets| && forall i :: 0 <= i < |ops| ==> ops[i] == TxConservation.ResetOp(resets[i])
  {
    if resets == [] then [] else [TxConservation.ResetOp(resets[0])] + ResetOps(resets[1..])
  }

  ghost function SaveOps(t: Tables, outcome: Outcome, now: int): seq<Op> {
    match outcome
    case Found(f) =>
      var cutOff := CutOff(Db(t, TxConservation.EMPTY_DB.txs));
      [TxConservation.SaveBlockOp(f.block, f.txs, f.missing, now, cutOff)]
    case _ => []
  }

  /** The resets of the walk, then the save of what it found, with the cut-off of the tables as they then are. */
  ghost function WalkOps(t: Tables, w: WalkResult, now: int): seq<Op> {
    ResetOps(w.resets) + SaveOps(ResetTables(t, w.resets), w.outcome, now)
  }

  ghost function TurnOps(s: LoopState, start: nat, turn: Turn): seq<Op> {
    if Imports(s, turn) then WalkOps(s.db.blocks, RoundWalk(s.db.blocks, start, turn.src), turn.now) else []
  }

  /** What the main loop does over the turns, in order. */
  ghost function RunOps(s: LoopState, start: nat, stop: Option<int>, turns: seq<Turn>): seq<Op>
    decreases |turns|
  {
    if Idle(s, stop, turns) then []
    else if Polled(s, turns[0].polls).1.StillPolling? then TurnOps(s, start, turns[0])
    else TurnOps(s, start, turns[0]) + RunOps(AfterTurn(s, start, turns[0]), start, stop, turns[1..])
  }

  /** The operations of the importer among others: late transactions may come anywhere between them. */
  function WithoutLate(ops: seq<Op>): seq<Op> {
    if ops == [] then [] else (if ops[0].SaveTxOp? then [] else [ops[0]]) + WithoutLate(ops[1..])
  }

  // ---------------------------------------------------------------- the block tables decide

  function BlocksAfter(t: Tables, op: Op): Tables {
    match op
    case SaveBlockOp(b, _, _, _, _) => SaveBlock(t, b)
    case ResetOp(r) => Reset(t, r)
    case SaveTxOp(_, _, _) => t
  }

  ghost predicate BlockEnabled(t: Tables, op: Op) {
    match op
    case SaveBlockOp(b, txs, missing, _, _) =>
      SavesOnTop(t, b) && !HasHash(View(t), b.hash) && TxConservation.Splits(b, txs, missing)
    case ResetOp(r) => forall h :: h in t.stableBlocks ==> h <= r
    case SaveTxOp(_, _, _) => true
  }

  function AllBlocksAfter(t: Tables, ops: seq<Op>): Tables
    decreases |ops|
  {
    if ops == [] then t else AllBlocksAfter(BlocksAfter(t, ops[0]), ops[1..])
  }

  ghost predicate AllBlockEnabled(t: Tables, ops: seq<Op>)
    decreases |ops|
  {
    ops == [] || (BlockEnabled(t, ops[0]) && AllBlockEnabled(BlocksAfter(t, ops[0]), ops[1..]))
  }

  lemma PerformBlocks(db: Db, op: Op)
    ensures TxConservation.Perform(db, op).blocks == BlocksAfter(db.blocks, op)
  {
  }

  lemma {:induction false} EnabledAppend(t: Tables, a: seq<Op>, b: seq<Op>)
    ensures AllBlockEnabled(t, a + b) <==> (AllBlockEnabled(t, a) && AllBlockEnabled(AllBlocksAfter(t, a), b))
    ensures AllBlocksAfter(t, a + b) == AllBlocksAfter(AllBlocksAfter(t, a), b)
    decreases |a|
  {
    if a == [] {
      assert a + b == b;
    } else {
      assert (a + b)[1..] == a[1..] + b;
      EnabledAppend(BlocksAfter(t, a[0]), a[1..], b);
    }
  }

  /** Late transactions change nothing about which of the others are enabled. */
  lemma {:induction false} LateOnesDoNotMatter(t: Tables, ops: seq<Op>)
    ensures AllBlockEnabled(t, ops) <==> AllBlockEnabled(t, WithoutLate(ops))
    decreases |ops|
  {
    if ops != [] {
      LateOnesDoNotMatter(BlocksAfter(t, ops[0]), ops[1..]);
      if ops[0].SaveTxOp? {
        assert WithoutLate(ops) == WithoutLate(ops[1..]);
      } else {
        assert WithoutLate(ops)[1..] == WithoutLate(ops[1..]);
      }
    }
  }

  /** Late transactions are stored at the height they are listed as missing at when they arrive. */
  ghost predicate LateHeightsRead(ops: seq<Op>) {
    forall k: nat :: k < |ops| && ops[k].SaveTxOp? ==>
      MissingHeight(TxConservation.StateAt(ops, k).txs, ops[k].tx, ops[k].height)
  }

  lemma {:induction false} BlocksAt(ops: seq<Op>, k: nat)
    requires k <= |ops|
    ensures TxConservation.StateAt(ops, k).blocks == AllBlocksAfter(TxConservation.EMPTY_DB.blocks, ops[..k])
  {
    var t := TxConservation.EMPTY_DB.blocks;
    if k > 0 {
      BlocksAt(ops, k - 1);
      TxConservation.StateStep(ops, k - 1);
      PerformBlocks(TxConservation.StateAt(ops, k - 1), ops[k - 1]);
      assert ops[..k] == ops[..k - 1] + [ops[k - 1]];
      EnabledAppend(t, ops[..k - 1], [ops[k - 1]]);
      AfterOne(AllBlocksAfter(t, ops[..k - 1]), ops[k - 1]);
    }
  }

  lemma AfterOne(t: Tables, op: Op)
    ensures AllBlocksAfter(t, [op]) == BlocksAfter(t, op)
    ensures AllBlockEnabled(t, [op]) <==> BlockEnabled(t, op)
  {
    assert AllBlocksAfter(BlocksAfter(t, op), [op][1..]) == BlocksAfter(t, op);
  }

  lemma EnabledAt(t: Tables, ops: seq<Op>, k: nat)
    requires AllBlockEnabled(t, ops) && k < |ops|
    ensures BlockEnabled(AllBlocksAfter(t, ops[..k]), ops[k])
  {
    assert ops == ops[..k] + ops[k..];
    EnabledAppend(t, ops[..k], ops[k..]);
  }

  lemma BlocksEnableAll(ops: seq<Op>)
    requires AllBlockEnabled(TxConservation.EMPTY_DB.blocks, ops) && LateHeightsRead(ops)
    ensures TxConservation.AllEnabled(ops)
  {
    forall k: nat | k < |ops| ensures TxConservation.Enabled(TxConservation.StateAt(ops, k), ops[k]) {
      BlocksAt(ops, k);
      EnabledAt(TxConservation.EMPTY_DB.blocks, ops, k);
    }
  }

  // ---------------------------------------------------------------- one import

  lemma {:induction false} ResetsEnabled(t: Tables, resets: seq<int>)
    requires forall h, i :: h in t.stableBlocks && 0 <= i < |resets| ==> h <= resets[i]
    ensures AllBlockEnabled(t, ResetOps(resets)) && AllBlocksAfter(t, ResetOps(resets)) == ResetTables(t, resets)
    decreases |resets|
  {
    if resets != [] {
      ResetsEnabled(Reset(t, resets[0]), resets[1..]);
      assert ResetOps(resets)[1..] == ResetOps(resets[1..]);
    }
  }

  /** What is fetched with a block splits its list. */
  ghost predicate SplitsLists(src: Source) {
    forall h: nat :: src(h).Some? ==>
      var f := src(h).value; TxConservation.Splits(f.block, f.txs, f.missing)
  }

  lemma FreshOnCut(cut: Tables, start: nat, s: seq<Block>, universe: iset<Block>, top: nat)
    requires Valid(cut) && LinkedChain(View(cut), start, top) && AgreesBelow(View(cut), s, top)
    requires ValidChain(s) && ChainIn(s, universe) && HashDeterminesBlock(universe) && top < |s|
    ensures SavesOnTop(cut, s[top]) && !HasHash(View(cut), s[top].hash)
  {
    NextBlockSavesOnTop(cut, start, s, universe, top);
    UniverseMakesHashesAgree(View(cut), s, universe);
  }

  lemma FoundEnabled(
      st: State, start: nat, next: nat, boundary: int, round: Round, universe: iset<Block>, w: WalkResult)
    requires Final(st, start, next, boundary, round.chain, universe) && GoodRound(round, universe)
    requires HashDeterminesBlock(universe)
    requires IsWalk(View(st.tables), start, round.src, next, 0, w) && w.outcome.Found?
    ensures var cut, b := ResetTables(st.tables, w.resets), w.outcome.fetched.block;
      SavesOnTop(cut, b) && !HasHash(View(cut), b.hash)
  {
    var cut, top := FoundCut(st, start, next, boundary, round, universe, w);
    FreshOnCut(cut, start, round.chain, universe, top);
  }

  /** Every operation of one import is enabled, and they leave the tables of the round. */
  lemma ImportEnabled(st: State, start: nat, round: Round, universe: iset<Block>, now: int)
    requires IsFinal(st, start, round.chain, universe) && GoodRound(round, universe) && HashDeterminesBlock(universe)
    requires SplitsLists(round.src)
    ensures var w := RoundWalk(st.tables, start, round.src);
      && AllBlockEnabled(st.tables, WalkOps(st.tables, w, now))
      && AllBlocksAfter(st.tables, WalkOps(st.tables, w, now)) == TablesAfterWalk(st.tables, w)
  {
    var next, boundary :| Final(st, start, next, boundary, round.chain, universe);
    NextIsAboveTheTop(View(st.tables), start, next);
    WalkShape(View(st.tables), start, round.src, next, 0);
    var w := RoundWalk(st.tables, start, round.src);
    RoundIsSafe(st, start, next, boundary, round, universe);
    ResetsEnabled(st.tables, w.resets);
    var cut := ResetTables(st.tables, w.resets);
    EnabledAppend(st.tables, ResetOps(w.resets), SaveOps(cut, w.outcome, now));
    if w.outcome.Found? {
      FoundEnabled(st, start, next, boundary, round, universe, w);
      AfterOne(cut, SaveOps(cut, w.outcome, now)[0]);
    }
  }

  // ---------------------------------------------------------------- whole runs

  ghost predicate AllSplit(turns: seq<Turn>) {
    forall i :: 0 <= i < |turns| ==> SplitsLists(turns[i].src)
  }

  lemma TurnEnabled(
      s: LoopState, start: nat, stop: Option<int>, turns: seq<Turn>, chains: seq<seq<Block>>, rounds: seq<Round>,
      universe: iset<Block>)
    requires Underway(s, start, stop, turns, chains, rounds, universe) && !Idle(s, stop, turns) && AllSplit(turns)
    ensures AllBlockEnabled(s.db.blocks, TurnOps(s, start, turns[0]))
    ensures AllBlocksAfter(s.db.blocks, TurnOps(s, start, turns[0])) == AfterTurn(s, start, turns[0]).db.blocks
  {
    TurnIsRound(s, start, turns[0]);
    if Imports(s, turns[0]) {
      var round := Round(chains[0], turns[0].src);
      GrownHistoryIsGood(start, rounds, round, universe);
      FinalBeforeRound(start, rounds + [round], universe, |rounds|);
      assert (rounds + [round])[..|rounds|] == rounds;
      ImportEnabled(After(start, rounds), start, round, universe, turns[0].now);
    }
  }

  lemma {:induction false} RunEnabled(
      s: LoopState, start: nat, stop: Option<int>, turns: seq<Turn>, chains: seq<seq<Block>>, rounds: seq<Round>,
      universe: iset<Block>)
    requires Underway(s, start, stop, turns, chains, rounds, universe) && AllSplit(turns)
    ensures AllBlockEnabled(s.db.blocks, RunOps(s, start, stop, turns))
    decreases |turns|
  {
    if !Idle(s, stop, turns) {
      TurnEnabled(s, start, stop, turns, chains, rounds, universe);
      if !Polled(s, turns[0].polls).1.StillPolling? {
        var s' := AfterTurn(s, start, turns[0]);
        TakeOne(s, start, stop, turns, chains, rounds, universe);
        RunEnabled(s', start, stop, turns[1..], chains[1..], rounds + RoundsOf(s, turns[0], chains[0]), universe);
        EnabledAppend(s.db.blocks, TurnOps(s, start, turns[0]), RunOps(s', start, stop, turns[1..]));
      }
    }
  }

  /**
   The saves and resets of every importer run against a source that reorganises within the bound, with late transactions
   anywhere between them, are enabled operations of the conservation argument.
   */
  lemma ImporterRunsAreEnabled(
      s: LoopState, start: nat, stop: Option<int>, turns: seq<Turn>, chains: seq<seq<Block>>, universe: iset<Block>,
      ops: seq<Op>)
    requires Fresh(s) && HashDeterminesBlock(universe) && |chains| == |turns| && AllSplit(turns)
    requires Bounded(s, -1, start, stop, turns, chains, universe)
    requires WithoutLate(ops) == RunOps(s, start, stop, turns) && LateHeightsRead(ops)
    ensures TxConservation.AllEnabled(ops)
  {
    RunEnabled(s, start, stop, turns, chains, [], universe);
    LateOnesDoNotMatter(TxConservation.EMPTY_DB.blocks, ops);
    BlocksEnableAll(ops);
  }

  /** So such a run loses nothing exactly when no flush sweeps a listed transaction. */
  lemma ImporterLosesExactly(
      s: LoopState, start: nat, stop: Option<int>, turns: seq<Turn>, chains: seq<seq<Block>>, universe: iset<Block>,
      ops: seq<Op>)
    requires Fresh(s) && HashDeterminesBlock(universe) && |chains| == |turns| && AllSplit(turns)
    requires Bounded(s, -1, start, stop, turns, chains, universe)
    requires WithoutLate(ops) == RunOps(s, start, stop, turns) && LateHeightsRead(ops)
    ensures (forall k: nat :: k <= |ops| ==> TxConservation.NothingLost(TxConservation.StateAt(ops, k)))
      <==> (forall k: nat :: k < |ops| ==> !TxConservation.OpSweeps(TxConservation.StateAt(ops, k), ops[k]))
  {
    ImporterRunsAreEnabled(s, start, stop, turns, chains, universe, ops);
    TxConservation.RunLosesExactly(ops);
  }

  // ---------------------------------------------------------------- the operations are the run's

  ghost function AllPerformed(db: Db, ops: seq<Op>): Db
    decreases |ops|
  {
    if ops == [] then db else AllPerformed(TxConservation.Perform(db, ops[0]), ops[1..])
  }

  lemma {:induction false} PerformedAppend(db: Db, a: seq<Op>, b: seq<Op>)
    ensures AllPerformed(db, a + b) == AllPerformed(AllPerformed(db, a), b)
    decreases |a|
  {
    if a == [] {
      assert a + b == b;
    } else {
      assert (a + b)[1..] == a[1..] + b;
      PerformedAppend(TxConservation.Perform(db, a[0]), a[1..], b);
    }
  }

  lemma {:induction false} ResetsPerformed(db: Db, resets: seq<int>)
    ensures AllPerformed(db, ResetOps(resets)) == ResetDb(db, resets)
    decreases |resets|
  {
    if resets != [] {
      ResetsPerformed(TxTables.ResetToHeight(db, resets[0]), resets[1..]);
      assert ResetOps(resets)[1..] == ResetOps(resets[1..]);
    }
  }

  lemma OnePerformed(db: Db, op: Op)
    ensures AllPerformed(db, [op]) == TxConservation.Perform(db, op)
  {
    assert AllPerformed(TxConservation.Perform(db, op), [op][1..]) == TxConservation.Perform(db, op);
  }

  lemma SavePerformed(cut: Db, w: WalkResult, now: int)
    ensures AllPerformed(cut, SaveOps(cut.blocks, w.outcome, now))
      == if w.outcome.Found? then AfterSave(cut, w.outcome.fetched, now) else cut
  {
    if w.outcome.Found? {
      OnePerformed(cut, SaveOps(cut.blocks, w.outcome, now)[0]);
      CutOffReadsBlocks(cut);
    }
  }

  lemma CutOffReadsBlocks(db: Db)
    ensures CutOff(Db(db.blocks, TxConservation.EMPTY_DB.txs)) == CutOff(db)
  {
  }

  lemma WalkPerformed(db: Db, w: WalkResult, now: int)
    ensures AllPerformed(db, WalkOps(db.blocks, w, now)) == AfterImport(db, w, now)
  {
    ResetDbIsResetTables(db, w.resets);
    ResetsPerformed(db, w.resets);
    SavePerformed(ResetDb(db, w.resets), w, now);
    PerformedAppend(db, ResetOps(w.resets), SaveOps(ResetTables(db.blocks, w.resets), w.outcome, now));
  }

  lemma TurnPerformed(s: LoopState, start: nat, turn: Turn)
    ensures AllPerformed(s.db, TurnOps(s, start, turn)) == AfterTurn(s, start, turn).db
  {
    if Imports(s, turn) {
      TurnImports(s, start, turn);
      WalkPerformed(s.db, RoundWalk(s.db.blocks, start, turn.src), turn.now);
    }
  }

  /**
   Performed one after the other without late transactions, the operations leave the database that the main loop
   leaves.
   */
  lemma {:induction false} RunPerformed(s: LoopState, start: nat, stop: Option<int>, turns: seq<Turn>)
    ensures AllPerformed(s.db, RunOps(s, start, stop, turns)) == AfterTurns(s, start, stop, turns).db
    decreases |turns|
  {
    if !Idle(s, stop, turns) {
      TurnPerformed(s, start, turns[0]);
      RunUnfolds(s, start, stop, turns);
      if !Polled(s, turns[0].polls).1.StillPolling? {
        var s' := AfterTurn(s, start, turns[0]);
        RunPerformed(s', start, stop, turns[1..]);
        PerformedAppend(s.db, TurnOps(s, start, turns[0]), RunOps(s', start, stop, turns[1..]));
      }
    }
  }

  // ---------------------------------------------------------------- what the importer counts

  /** The transactions that came with the blocks saved. */
  function TxsSaved(ops: seq<Op>): nat {
    if ops == [] then 0 else (if ops[0].SaveBlockOp? then |ops[0].txs| else 0) + TxsSaved(ops[1..])
  }

  lemma {:induction false} SavedAppend(a: seq<Op>, b: seq<Op>)
    ensures TxsSaved(a + b) == TxsSaved(a) + TxsSaved(b)
    decreases |a|
  {
    if a == [] {
      assert a + b == b;
    } else {
      assert (a + b)[1..] == a[1..] + b;
      SavedAppend(a[1..], b);
    }
  }

  lemma {:induction false} ResetsSaveNothing(resets: seq<int>)
    ensures TxsSaved(ResetOps(resets)) == 0
    decreases |resets|
  {
    if resets != [] {
      ResetsSaveNothing(resets[1..]);
      assert ResetOps(resets)[1..] == ResetOps(resets[1..]);
    }
  }

  lemma WalkSaves(t: Tables, w: WalkResult, now: int)
    ensures TxsSaved(WalkOps(t, w, now)) == if w.outcome.Found? then |w.outcome.fetched.txs| else 0
  {
    ResetsSaveNothing(w.resets);
    var saves := SaveOps(ResetTables(t, w.resets), w.outcome, now);
    SavedAppend(ResetOps(w.resets), saves);
    if w.outcome.Found? {
      assert saves[1..] == [];
    }
  }

  lemma TurnCounts(s: LoopState, start: nat, turn: Turn)
    ensures AfterTurn(s, start, turn).imported == s.imported + TxsSaved(TurnOps(s, start, turn))
  {
    if Imports(s, turn) {
      TurnImports(s, start, turn);
      WalkSaves(s.db.blocks, RoundWalk(s.db.blocks, start, turn.src), turn.now);
    }
  }

  /** The counter of imported transactions grows by exactly what the saves of the run bring. */
  lemma {:induction false} RunCounts(s: LoopState, start: nat, stop: Option<int>, turns: seq<Turn>)
    ensures AfterTurns(s, start, stop, turns).imported == s.imported + TxsSaved(RunOps(s, start, stop, turns))
    decreases |turns|
  {
    if !Idle(s, stop, turns) {
      TurnCounts(s, start, turns[0]);
      RunUnfolds(s, start, stop, turns);
      if !Polled(s, turns[0].polls).1.StillPolling? {
        var s' := AfterTurn(s, start, turns[0]);
        RunCounts(s', start, stop, turns[1..]);
        SavedAppend(TurnOps(s, start, turns[0]), RunOps(s', start, stop, turns[1..]));
      }
    }
  }
}
