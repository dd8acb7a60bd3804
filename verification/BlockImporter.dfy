/** The block importer as an object over the database worker: the fork walk, the import and the main loop. */
module BlockImporter {
  import opened Options
  import opened Chain
  import opened ForkWalk
  import opened BlockTables
  import TxTables
  import opened SqliteWorker
  import Finality

  /** One answer of `chainSource.getHeight`, or a failed request. */
  type Poll = Option<int>

  datatype NextHeightResult = Ready(height: nat) | Threw | StillPolling

  /** The outside world during one turn of the main loop. */
  datatype Turn = Turn(polls: seq<Poll>, src: Source, now: int)

  // ---------------------------------------------------------------- what the importer computes

  ghost function ResetDb(db: TxTables.Db, resets: seq<int>): TxTables.Db
    decreases |resets|
  {
    if resets == [] then db else ResetDb(TxTables.ResetToHeight(db, resets[0]), resets[1..])
  }

  /** What is saved of a fetched block; `now` is the clock. */
  ghost function AfterSave(db: TxTables.Db, f: Fetched, now: int): TxTables.Db {
    TxTables.SaveBlockAndTxs(db, f.block, f.txs, f.missing, now, TxTables.CutOff(db))
  }

  ghost function AfterImport(db: TxTables.Db, w: WalkResult, now: int): TxTables.Db {
    var cut := ResetDb(db, w.resets);
    match w.outcome
    case Found(f) => AfterSave(cut, f, now)
    case _ => cut
  }

  function ImportedTxs(w: WalkResult): nat {
    if w.outcome.Found? then |w.outcome.fetched.txs| else 0
  }

  /** The answers `getNextHeight` consumes: `maxChainHeight` afterwards, and how it ends. */
  function PollUntilAhead(maxChainHeight: int, dbHeight: int, polls: seq<Poll>): (int, NextHeightResult)
    requires dbHeight >= -1
    decreases |polls|
  {
    if dbHeight < maxChainHeight then (maxChainHeight, Ready(dbHeight + 1))
    else if polls == [] then (maxChainHeight, StillPolling)
    else match polls[0]
      case None => (maxChainHeight, Threw)
      case Some(h) => PollUntilAhead(h, dbHeight, polls[1..])
  }

  function NextHeightAfterPolls(maxChainHeight: int, dbHeight: int, polls: seq<Poll>): (int, NextHeightResult)
    requires dbHeight >= -1
  {
    if maxChainHeight != 0 then PollUntilAhead(maxChainHeight, dbHeight, polls)
    else if polls == [] then (0, StillPolling)
    else match polls[0]
      case None => (0, Threw)
      case Some(h) => PollUntilAhead(h, dbHeight, polls[1..])
  }

  /** The importer between turns of its main loop. */
  datatype LoopState = LoopState(db: TxTables.Db, maxChainHeight: int, shouldRun: bool, nextHeight: int, imported: nat)

  /** `getNextHeight` on the loop state. */
  ghost function Polled(s: LoopState, polls: seq<Poll>): (int, NextHeightResult) {
    NextHeightAfterPolls(s.maxChainHeight, MaxHeight(View(s.db.blocks)), polls)
  }

  ghost function AfterImportAt(s: LoopState, start: nat, turn: Turn, height: nat): LoopState {
    var w := Walk(View(s.db.blocks), start, turn.src, height, 0);
    s.(db := AfterImport(s.db, w, turn.now), shouldRun := s.shouldRun && !w.outcome.DepthExceeded?,
       nextHeight := height, imported := s.imported + ImportedTxs(w))
  }

  /**
   One turn: poll, then import the next height. An exception ends the turn; exceeding the depth limit ends the run.
   */
  ghost function AfterTurn(s: LoopState, start: nat, turn: Turn): LoopState {
    var (maxChainHeight, next) := Polled(s, turn.polls);
    var polled := s.(maxChainHeight := maxChainHeight);
    if next.Ready? then
      AfterImportAt(polled, start, turn, if next.height == 0 && start != 0 then start else next.height)
    else polled
  }

  /** `start`, for as long as the given turns last; a turn that is still polling is the last. */
  ghost function AfterTurns(s: LoopState, start: nat, stop: Option<int>, turns: seq<Turn>): LoopState
    decreases |turns|
  {
    if turns == [] || !s.shouldRun then s
    else if stop.Some? && s.nextHeight >= stop.value then s.(shouldRun := false)
    else if Polled(s, turns[0].polls).1.StillPolling? then AfterTurn(s, start, turns[0])
    else AfterTurns(AfterTurn(s, start, turns[0]), start, stop, turns[1..])
  }

  // ---------------------------------------------------------------- the walk reads only below its resets

  lemma {:induction false} WalkReadsBelow(ix: Index, ix': Index, start: nat, src: Source, height: nat, depth: nat)
    requires depth <= MAX_FORK_DEPTH + 1
    requires forall h :: h < height ==> (h in ix <==> h in ix') && (h in ix ==> ix[h] == ix'[h])
    ensures Walk(ix, start, src, height, depth) == Walk(ix', start, src, height, depth)
    decreases MAX_FORK_DEPTH + 1 - depth
  {
    if depth <= MAX_FORK_DEPTH && height > start {
      WalkReadsBelow(ix, ix', start, src, height - 1, depth + 1);
    }
  }

  /** How a walk over the database ends, and the database it leaves. */
  ghost function Walked(db: TxTables.Db, start: nat, src: Source, height: nat, depth: nat): (Outcome, TxTables.Db)
    requires depth <= MAX_FORK_DEPTH + 1
  {
    var w := Walk(View(db.blocks), start, src, height, depth);
    (w.outcome, ResetDb(db, w.resets))
  }

  /** A mismatch resets to `height-2`, which changes nothing that the rest of the walk, from `height-1`, reads. */
  lemma WalkStep(db: TxTables.Db, start: nat, src: Source, height: nat, depth: nat)
    requires depth <= MAX_FORK_DEPTH && height > start && src(height).Some?
    requires Mismatch(View(db.blocks), height, src(height).value.block)
    ensures Walked(db, start, src, height, depth)
      == Walked(TxTables.ResetToHeight(db, height - 2), start, src, height - 1, depth + 1)
  {
    WalkReadsBelow(View(Reset(db.blocks, height - 2)), View(db.blocks), start, src, height - 1, depth + 1);
    var below := Walk(View(db.blocks), start, src, height - 1, depth + 1);
    assert ([height - 2] + below.resets)[1..] == below.resets;
  }

  // ---------------------------------------------------------------- the object

  class BlockImporter {
    const chainIndex: StandaloneSqliteDatabaseWorker
    const startHeight: nat
    const stopHeight: Option<int>    // `None` is the default, Infinity
    var maxChainHeight: int
    var shouldRun: bool
    var transactionsImported: nat

    constructor (chainIndex: StandaloneSqliteDatabaseWorker, startHeight: nat, stopHeight: Option<int>)
      ensures this.chainIndex == chainIndex && this.startHeight == startHeight && this.stopHeight == stopHeight
      ensures maxChainHeight == 0 && !shouldRun && transactionsImported == 0
    {
      this.chainIndex := chainIndex;
      this.startHeight := startHeight;
      this.stopHeight := stopHeight;
      maxChainHeight, shouldRun, transactionsImported := 0, false, 0;
    }

    ghost function Indexed(): Index
      reads chainIndex
    {
      View(chainIndex.Model().blocks)
    }

    method Stop()
      modifies this`shouldRun
      ensures !shouldRun
    {
      shouldRun := false;
    }

    /** The block below `height` is not indexed, or is not the one `block` names. */
    method IsForked(height: nat, block: Block) returns (forked: bool)
      requires height > 0
      ensures forked == Mismatch(Indexed(), height, block)
    {
      var previousDbBlockHash := chainIndex.GetBlockHashByHeight(height - 1);
      return previousDbBlockHash.None? || block.previous != previousDbBlockHash;
    }

    /** Walks back through a fork or gap, truncating the index at each level. */
    method GetBlockOrForkedBlock(src: Source, height: nat, forkDepth: nat) returns (outcome: Outcome)
      requires forkDepth <= MAX_FORK_DEPTH + 1
      modifies this`shouldRun, chainIndex
      ensures (outcome, chainIndex.Model()) == Walked(old(chainIndex.Model()), startHeight, src, height, forkDepth)
      ensures shouldRun == (old(shouldRun) && !outcome.DepthExceeded?)
      decreases MAX_FORK_DEPTH + 1 - forkDepth
    {
      if forkDepth > MAX_FORK_DEPTH {
        Stop();
        return DepthExceeded;
      }
      var answer := src(height);
      if answer.None? {
        return SourceFailed;
      }
      if height > startHeight {
        var forked := IsForked(height, answer.value.block);
        if forked {
          WalkStep(chainIndex.Model(), startHeight, src, height, forkDepth);
          chainIndex.ResetToHeight(height - 2);
          outcome := GetBlockOrForkedBlock(src, height - 1, forkDepth + 1);
          return;
        }
      }
      return Found(answer.value);
    }

    method SaveFetched(fetched: Fetched, now: int)
      modifies this`transactionsImported, chainIndex
      ensures chainIndex.Model() == AfterSave(old(chainIndex.Model()), fetched, now)
      ensures transactionsImported == old(transactionsImported) + |fetched.txs|
    {
      ghost var before := chainIndex.Model();
      assert before.blocks.stableBlocks == chainIndex.stableBlocks;
      chainIndex.SaveBlockAndTxs(fetched.block, fetched.txs, fetched.missing, now);
      transactionsImported := transactionsImported + |fetched.txs|;
    }

    /** `false` is the exception the walk threw. */
    method ImportBlock(src: Source, height: nat, now: int) returns (imported: bool)
      modifies this`shouldRun, this`transactionsImported, chainIndex
      ensures var w := Walk(old(Indexed()), startHeight, src, height, 0);
        && imported == w.outcome.Found?
        && chainIndex.Model() == AfterImport(old(chainIndex.Model()), w, now)
        && shouldRun == (old(shouldRun) && !w.outcome.DepthExceeded?)
        && transactionsImported == old(transactionsImported) + ImportedTxs(w)
    {
      var outcome := GetBlockOrForkedBlock(src, height, 0);
      match outcome {
        case Found(fetched) =>
          SaveFetched(fetched, now);
          imported := true;
        case _ => imported := false;
      }
    }

    /** Polls until the chain is ahead of the index; `polls` are the answers it would get. */
    method GetNextHeight(polls: seq<Poll>) returns (r: NextHeightResult)
      modifies this`maxChainHeight
      ensures MaxHeight(Indexed()) >= -1 &&
        (maxChainHeight, r) == NextHeightAfterPolls(old(maxChainHeight), MaxHeight(Indexed()), polls)
    {
      var dbHeight := chainIndex.GetMaxHeight();
      var i := 0;
      if maxChainHeight == 0 {
        if |polls| == 0 {
          return StillPolling;
        }
        match polls[0] {
          case None => return Threw;
          case Some(h) => maxChainHeight, i := h, 1;
        }
      }
      while dbHeight >= maxChainHeight
        invariant i <= |polls|
        invariant PollUntilAhead(maxChainHeight, dbHeight, polls[i..])
          == NextHeightAfterPolls(old(maxChainHeight), dbHeight, polls)
        decreases |polls| - i
      {
        if i == |polls| {
          return StillPolling;
        }
        match polls[i] {
          case None => return Threw;
          case Some(h) => maxChainHeight := h;
        }
        i := i + 1;
      }
      return Ready(dbHeight + 1);
    }

    ghost function State(nextHeight: int): LoopState
      reads this, chainIndex
    {
      LoopState(chainIndex.Model(), maxChainHeight, shouldRun, nextHeight, transactionsImported)
    }

    /** One turn of the main loop; `polling` means it is still waiting for the chain to grow. */
    method TakeTurn(turn: Turn, height: int) returns (nextHeight: int, polling: bool)
      modifies this, chainIndex
      ensures State(nextHeight) == AfterTurn(old(State(height)), startHeight, turn)
      ensures polling == Polled(old(State(height)), turn.polls).1.StillPolling?
    {
      nextHeight, polling := height, false;
      var next := GetNextHeight(turn.polls);
      match next {
        case Ready(h) =>
          nextHeight := if h == 0 && startHeight != 0 then startHeight else h;
          var imported := ImportBlock(turn.src, nextHeight, turn.now);
        case Threw =>
        case StillPolling => polling := true;
      }
    }

    method Start(turns: seq<Turn>) returns (nextHeight: int)
      modifies this, chainIndex
      ensures State(nextHeight) == AfterTurns(old(State(-1)).(shouldRun := true), startHeight, stopHeight, turns)
    {
      shouldRun := true;
      nextHeight := -1;
      var i := 0;
      while shouldRun && i < |turns|
        invariant i <= |turns|
        invariant AfterTurns(State(nextHeight), startHeight, stopHeight, turns[i..])
               == AfterTurns(old(State(-1)).(shouldRun := true), startHeight, stopHeight, turns)
        decreases |turns| - i
      {
        ghost var before := State(nextHeight);
        if stopHeight.Some? && nextHeight >= stopHeight.value {
          Stop();
          assert State(nextHeight) == before.(shouldRun := false);
          return;
        }
        var polling;
        nextHeight, polling := TakeTurn(turns[i], nextHeight);
        if polling {
          return;
        }
        assert turns[i..][1..] == turns[i + 1..];
        i := i + 1;
      }
    }
  }

  // ---------------------------------------------------------------- turns are rounds

  /** The block tables of a turn that imports are those of a round of the finality argument. */
  lemma {:induction false} ResetDbIsResetTables(db: TxTables.Db, resets: seq<int>)
    ensures ResetDb(db, resets).blocks == Finality.ResetTables(db.blocks, resets)
    decreases |resets|
  {
    if resets != [] {
      ResetDbIsResetTables(TxTables.ResetToHeight(db, resets[0]), resets[1..]);
    }
  }

  lemma ImportIsRound(db: TxTables.Db, w: WalkResult, now: int)
    ensures AfterImport(db, w, now).blocks == Finality.TablesAfterWalk(db.blocks, w)
  {
    ResetDbIsResetTables(db, w.resets);
  }

  lemma ImportAtIsRound(s: LoopState, start: nat, turn: Turn)
    ensures AfterImportAt(s, start, turn, NextHeight(View(s.db.blocks), start)).db.blocks
         == Finality.TablesAfterWalk(s.db.blocks, Finality.RoundWalk(s.db.blocks, start, turn.src))
  {
    ImportIsRound(s.db, Finality.RoundWalk(s.db.blocks, start, turn.src), turn.now);
  }

  /**
   A turn that gets a height makes one round, at the height the finality argument imports; no other touches the tables.
   Only a walk past the depth limit stops the loop.
   */
  lemma TurnIsRound(s: LoopState, start: nat, turn: Turn)
    ensures Polled(s, turn.polls).1.Ready? ==>
      AfterTurn(s, start, turn).db.blocks
        == Finality.TablesAfterWalk(s.db.blocks, Finality.RoundWalk(s.db.blocks, start, turn.src))
    ensures !Polled(s, turn.polls).1.Ready? ==> AfterTurn(s, start, turn).db == s.db
    ensures var gaveUp := Polled(s, turn.polls).1.Ready?
      && Finality.RoundWalk(s.db.blocks, start, turn.src).outcome.DepthExceeded?;
      AfterTurn(s, start, turn).shouldRun == (s.shouldRun && !gaveUp)
  {
    if Polled(s, turn.polls).1.Ready? {
      TurnImports(s, start, turn);
      ImportAtIsRound(s.(maxChainHeight := Polled(s, turn.polls).0), start, turn);
    }
  }

  /** Such a turn imports at the height above the index. */
  lemma TurnImports(s: LoopState, start: nat, turn: Turn)
    requires Polled(s, turn.polls).1.Ready?
    ensures AfterTurn(s, start, turn) == AfterImportAt(
      s.(maxChainHeight := Polled(s, turn.polls).0), start, turn, NextHeight(View(s.db.blocks), start))
  {
    ReadyAtTheNextHeight(s, start, turn.polls);
    TurnAt(s, start, turn, Polled(s, turn.polls).0, NextHeight(View(s.db.blocks), start));
  }

  lemma ReadyAtTheNextHeight(s: LoopState, start: nat, polls: seq<Poll>)
    requires Polled(s, polls).1.Ready?
    ensures var height := Polled(s, polls).1.height;
      NextHeight(View(s.db.blocks), start) == if height == 0 && start != 0 then start else height
  {
    PollsGiveTheNextHeight(s.maxChainHeight, MaxHeight(View(s.db.blocks)), polls);
  }

  lemma TurnAt(s: LoopState, start: nat, turn: Turn, maxChainHeight: int, at: nat)
    requires var (m, next) := Polled(s, turn.polls);
      m == maxChainHeight && next.Ready? && at == if next.height == 0 && start != 0 then start else next.height
    ensures AfterTurn(s, start, turn) == AfterImportAt(s.(maxChainHeight := maxChainHeight), start, turn, at)
  {
  }

  // ---------------------------------------------------------------- when polling ends

  /** The first `n` polls all answer a height at most the index. */
  ghost predicate AllBehind(polls: seq<Poll>, n: nat, dbHeight: int) {
    n <= |polls| && forall j :: 0 <= j < n ==> polls[j].Some? && polls[j].value <= dbHeight
  }

  /** Poll `i` reports a height above the index, and every earlier one at most the index. */
  ghost predicate FirstAhead(polls: seq<Poll>, i: nat, dbHeight: int) {
    i < |polls| && AllBehind(polls, i, dbHeight) && polls[i].Some? && polls[i].value > dbHeight
  }

  /** Poll `i` fails, and every earlier one answered at most the index. */
  ghost predicate FirstFailed(polls: seq<Poll>, i: nat, dbHeight: int) {
    i < |polls| && AllBehind(polls, i, dbHeight) && polls[i].None?
  }

  /** A chain height known from an earlier turn, 0 standing for none, is above the index. */
  predicate KnownAhead(maxChainHeight: int, dbHeight: int) {
    maxChainHeight != 0 && maxChainHeight > dbHeight
  }

  lemma ShiftBehind(polls: seq<Poll>, dbHeight: int)
    requires polls != [] && polls[0].Some? && polls[0].value <= dbHeight
    ensures forall n: nat :: AllBehind(polls[1..], n, dbHeight) <==> AllBehind(polls, n + 1, dbHeight)
  {
    forall n: nat ensures AllBehind(polls[1..], n, dbHeight) <==> AllBehind(polls, n + 1, dbHeight) {
      if AllBehind(polls[1..], n, dbHeight) {
        forall j | 0 <= j < n + 1 ensures polls[j].Some? && polls[j].value <= dbHeight {
          assert j > 0 ==> polls[j] == polls[1..][j - 1];
        }
      }
      if AllBehind(polls, n + 1, dbHeight) {
        forall j | 0 <= j < n ensures polls[1..][j].Some? && polls[1..][j].value <= dbHeight {
          assert polls[1..][j] == polls[j + 1];
        }
      }
    }
  }

  /** The chain height known after `n` answers. */
  function Heard(maxChainHeight: int, polls: seq<Poll>, n: nat): int
    requires n <= |polls|
  {
    if n == 0 || polls[n - 1].None? then maxChainHeight else polls[n - 1].value
  }

  /** How a polling loop that starts from a height at most the index ends. */
  lemma {:induction false} LoopEnds(maxChainHeight: int, dbHeight: int, polls: seq<Poll>)
    requires dbHeight >= -1 && maxChainHeight <= dbHeight
    ensures forall i: nat :: FirstAhead(polls, i, dbHeight) ==>
      PollUntilAhead(maxChainHeight, dbHeight, polls) == (Heard(maxChainHeight, polls, i + 1), Ready(dbHeight + 1))
    ensures forall i: nat :: FirstFailed(polls, i, dbHeight) ==>
      PollUntilAhead(maxChainHeight, dbHeight, polls) == (Heard(maxChainHeight, polls, i), Threw)
    ensures AllBehind(polls, |polls|, dbHeight) ==>
      PollUntilAhead(maxChainHeight, dbHeight, polls) == (Heard(maxChainHeight, polls, |polls|), StillPolling)
    decreases |polls|
  {
    if polls != [] && polls[0].Some? && polls[0].value <= dbHeight {
      ShiftBehind(polls, dbHeight);
      LoopEnds(polls[0].value, dbHeight, polls[1..]);
      forall i: nat | FirstAhead(polls, i, dbHeight)
        ensures PollUntilAhead(maxChainHeight, dbHeight, polls)
          == (Heard(maxChainHeight, polls, i + 1), Ready(dbHeight + 1))
      {
        assert FirstAhead(polls[1..], i - 1, dbHeight);
      }
      forall i: nat | FirstFailed(polls, i, dbHeight)
        ensures PollUntilAhead(maxChainHeight, dbHeight, polls) == (Heard(maxChainHeight, polls, i), Threw)
      {
        assert FirstFailed(polls[1..], i - 1, dbHeight);
      }
    }
  }

  /** Every list of polls is of one of the three kinds. */
  lemma {:induction false} PollsAreOfAKind(polls: seq<Poll>, dbHeight: int)
    ensures AllBehind(polls, |polls|, dbHeight)
      || exists i: nat :: FirstAhead(polls, i, dbHeight) || FirstFailed(polls, i, dbHeight)
    decreases |polls|
  {
    if polls != [] {
      if polls[0].Some? && polls[0].value <= dbHeight {
        ShiftBehind(polls, dbHeight);
        PollsAreOfAKind(polls[1..], dbHeight);
        if i: nat :| FirstAhead(polls[1..], i, dbHeight) || FirstFailed(polls[1..], i, dbHeight) {
          assert FirstAhead(polls, i + 1, dbHeight) || FirstFailed(polls, i + 1, dbHeight);
        }
      } else {
        assert FirstAhead(polls, 0, dbHeight) || FirstFailed(polls, 0, dbHeight);
      }
    }
  }

  /**
   When `getNextHeight` returns: at once if a known chain height is above the index, else with the first poll that
   reports one, if every poll before it answered at most the index. It throws exactly when a failed poll comes first,
   and otherwise it is still polling. It remembers the last height it was answered.
   */
  lemma PollingEnds(maxChainHeight: int, dbHeight: int, polls: seq<Poll>)
    requires dbHeight >= -1
    ensures var (m, next) := NextHeightAfterPolls(maxChainHeight, dbHeight, polls);
      var known := KnownAhead(maxChainHeight, dbHeight);
      && (next.Ready? <==> known || exists i: nat :: FirstAhead(polls, i, dbHeight))
      && (next.Threw? <==> !known && exists i: nat :: FirstFailed(polls, i, dbHeight))
      && (next.StillPolling? <==> !known && AllBehind(polls, |polls|, dbHeight))
      && (next.Ready? ==> next.height == dbHeight + 1)
    ensures var m := NextHeightAfterPolls(maxChainHeight, dbHeight, polls).0;
      var known := KnownAhead(maxChainHeight, dbHeight);
      && (known ==> m == maxChainHeight)
      && (forall i: nat :: !known && FirstAhead(polls, i, dbHeight) ==> m == polls[i].value)
      && (forall i: nat :: !known && FirstFailed(polls, i, dbHeight) ==> m == Heard(maxChainHeight, polls, i))
      && (!known && AllBehind(polls, |polls|, dbHeight) ==> m == Heard(maxChainHeight, polls, |polls|))
  {
    if !KnownAhead(maxChainHeight, dbHeight) {
      PollsAreOfAKind(polls, dbHeight);
      OneKindOnly(polls, dbHeight);
      UnknownIsBehind(maxChainHeight, dbHeight, polls);
    }
  }

  /** With no height known to be ahead, polling is the loop started from a height at most the index. */
  lemma UnknownIsBehind(maxChainHeight: int, dbHeight: int, polls: seq<Poll>)
    requires dbHeight >= -1 && !KnownAhead(maxChainHeight, dbHeight)
    ensures forall i: nat :: FirstAhead(polls, i, dbHeight) ==>
      NextHeightAfterPolls(maxChainHeight, dbHeight, polls) == (polls[i].value, Ready(dbHeight + 1))
    ensures forall i: nat :: FirstFailed(polls, i, dbHeight) ==>
      NextHeightAfterPolls(maxChainHeight, dbHeight, polls) == (Heard(maxChainHeight, polls, i), Threw)
    ensures AllBehind(polls, |polls|, dbHeight) ==>
      NextHeightAfterPolls(maxChainHeight, dbHeight, polls) == (Heard(maxChainHeight, polls, |polls|), StillPolling)
  {
    LoopEnds(if maxChainHeight <= dbHeight then maxChainHeight else dbHeight, dbHeight, polls);
  }

  lemma OneKindOnly(polls: seq<Poll>, dbHeight: int)
    ensures forall i: nat, j: nat :: FirstAhead(polls, i, dbHeight) ==> !FirstFailed(polls, j, dbHeight)
    ensures forall i: nat ::
      FirstAhead(polls, i, dbHeight) || FirstFailed(polls, i, dbHeight) ==> !AllBehind(polls, |polls|, dbHeight)
  {
    forall i: nat, j: nat | FirstAhead(polls, i, dbHeight) ensures !FirstFailed(polls, j, dbHeight) {
      assert polls[i].value > dbHeight && (j < i ==> polls[j].Some?);
    }
    forall i: nat | FirstAhead(polls, i, dbHeight) || FirstFailed(polls, i, dbHeight)
      ensures !AllBehind(polls, |polls|, dbHeight)
    {
      assert polls[i].None? || polls[i].value > dbHeight;
    }
  }

  lemma {:induction false} PollingGivesTheNextHeight(maxChainHeight: int, dbHeight: int, polls: seq<Poll>)
    requires dbHeight >= -1
    ensures var (m, next) := PollUntilAhead(maxChainHeight, dbHeight, polls);
      next.Ready? ==> next.height == dbHeight + 1 <= m
    decreases |polls|
  {
    if dbHeight >= maxChainHeight && polls != [] && polls[0].Some? {
      PollingGivesTheNextHeight(polls[0].value, dbHeight, polls[1..]);
    }
  }

  /** `getNextHeight` returns the height above the index, and only once the chain has reached it. */
  lemma PollsGiveTheNextHeight(maxChainHeight: int, dbHeight: int, polls: seq<Poll>)
    requires dbHeight >= -1
    ensures var (m, next) := NextHeightAfterPolls(maxChainHeight, dbHeight, polls);
      next.Ready? ==> next.height == dbHeight + 1 <= m
  {
    PollingGivesTheNextHeight(maxChainHeight, dbHeight, polls);
    if maxChainHeight == 0 && polls != [] && polls[0].Some? {
      PollingGivesTheNextHeight(polls[0].value, dbHeight, polls[1..]);
    }
  }
}
