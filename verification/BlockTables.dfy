/**
 The two tiers of block tables: `new_blocks`, which a reset truncates, and `stable_blocks`, which
 nothing ever truncates. Both are kept by height; `new_blocks` has `indep_hash` for its primary key
 and `stable_blocks` has it unique, so inserting a hash a second time is ignored.
 */
module BlockTables {
  import opened Options
  import opened Chain
  import ForkWalk

  const STABLE_FLUSH_INTERVAL: nat := 5

  datatype Tables = Tables(newBlocks: map<nat, Block>, stableBlocks: map<nat, Block>)

  predicate HasHash(rows: map<nat, Block>, hash: Hash) {
    exists h :: h in rows && rows[h].hash == hash
  }

  // ---------------------------------------------------------------- statements

  /** `insertOrIgnoreNewBlock`, for a height with no other new row. */
  function InsertNewBlock(t: Tables, b: Block): Tables {
    if HasHash(t.newBlocks, b.hash) then t else t.(newBlocks := t.newBlocks[b.height := b])
  }

  /** `truncateNewBlocksAt`. */
  function Reset(t: Tables, r: int): Tables {
    t.(newBlocks := map h | h in t.newBlocks && h <= r :: t.newBlocks[h])
  }

  /** `insertOrIgnoreStableBlocks`: rows below the end height that conflict with no stable row. */
  function CopyStable(t: Tables, end: int): Tables {
    t.(stableBlocks := t.stableBlocks + map h | h in t.newBlocks && h < end && h !in t.stableBlocks
                                             && !HasHash(t.stableBlocks, t.newBlocks[h].hash) :: t.newBlocks[h])
  }

  /** `deleteStaleNewBlocks`. */
  function DeleteStale(t: Tables, threshold: int): Tables {
    t.(newBlocks := map h | h in t.newBlocks && h >= threshold :: t.newBlocks[h])
  }

  /** Copy, then delete, everything below `end`. */
  function Flush(t: Tables, end: int): Tables {
    DeleteStale(CopyStable(t, end), end)
  }

  /** On every fifth height, everything more than `MAX_FORK_DEPTH` below the saved block is flushed. */
  function FlushAfter(t: Tables, height: nat): Tables {
    if height % STABLE_FLUSH_INTERVAL == 0 then Flush(t, height - MAX_FORK_DEPTH) else t
  }

  function SaveBlock(t: Tables, b: Block): Tables {
    FlushAfter(InsertNewBlock(t, b), b.height)
  }

  // ---------------------------------------------------------------- the tables as one index

  /** Rows sit at their heights, and a height in both tiers holds one block. */
  ghost predicate Valid(t: Tables) {
    && Keyed(t.newBlocks) && Keyed(t.stableBlocks)
    && (forall h :: h in t.newBlocks && h in t.stableBlocks ==> t.newBlocks[h] == t.stableBlocks[h])
  }

  /** What `selectBlockHashByHeight` and `selectMaxHeight` read: the union of both tiers. */
  function View(t: Tables): Index {
    t.stableBlocks + t.newBlocks
  }

  /** Stable heights lie strictly below `boundary`, new heights at or above it. */
  ghost predicate TiersSplitAt(t: Tables, boundary: int) {
    && (forall h :: h in t.stableBlocks ==> h < boundary)
    && (forall h :: h in t.newBlocks ==> boundary <= h)
  }

  /** No new row below `end` is refused because its hash is already stable at another height. */
  ghost predicate NoHashClash(t: Tables, end: int) {
    forall h :: h in t.newBlocks && h < end && h !in t.stableBlocks ==> !HasHash(t.stableBlocks, t.newBlocks[h].hash)
  }

  /** Stable rows are only ever added to. */
  ghost predicate StableGrows(t: Tables, t': Tables) {
    forall h :: h in t.stableBlocks ==> h in t'.stableBlocks && t'.stableBlocks[h] == t.stableBlocks[h]
  }

  // ---------------------------------------------------------------- two tiers refine one map

  /** Truncating only the new tier truncates the index exactly when no stable height lies above the target. */
  lemma ResetRefinesTruncate(t: Tables, r: int)
    requires Valid(t)
    ensures Valid(Reset(t, r)) && StableGrows(t, Reset(t, r))
    ensures View(Reset(t, r)) == Truncate(View(t), r) <==> forall h :: h in t.stableBlocks ==> h <= r
  {
    if h :| h in t.stableBlocks && h > r {
      assert h in View(Reset(t, r));
    }
  }

  /**
   Copy-then-delete leaves every lookup alone exactly when no copied row's hash is already stable at another height.
   */
  lemma FlushRefinesIdentity(t: Tables, end: int)
    requires Valid(t)
    ensures Valid(CopyStable(t, end)) && View(CopyStable(t, end)) == View(t)
    ensures Valid(Flush(t, end)) && StableGrows(t, Flush(t, end))
    ensures View(Flush(t, end)) == View(t) <==> NoHashClash(t, end)
  {
    CopyKeepsView(t, end);
    FlushDrops(t, end);
  }

  lemma CopyKeepsView(t: Tables, end: int)
    requires Valid(t)
    ensures Valid(CopyStable(t, end)) && View(CopyStable(t, end)) == View(t) && StableGrows(t, CopyStable(t, end))
  {
  }

  /** A flush drops rows of the index and changes none. */
  lemma FlushOnlyDrops(t: Tables, end: int)
    requires Valid(t) && View(CopyStable(t, end)) == View(t)
    ensures forall h :: h in View(Flush(t, end)) ==> h in View(t) && View(Flush(t, end))[h] == View(t)[h]
  {
    forall h | h in View(Flush(t, end)) ensures h in View(t) && View(Flush(t, end))[h] == View(t)[h] {
      assert h in View(CopyStable(t, end));
    }
  }

  /** What it drops are the new rows below the end height that were not copied. */
  lemma FlushDrops(t: Tables, end: int)
    requires Valid(t) && Valid(CopyStable(t, end)) && View(CopyStable(t, end)) == View(t)
    ensures Valid(Flush(t, end)) && Flush(t, end).stableBlocks == CopyStable(t, end).stableBlocks
    ensures View(Flush(t, end)) == View(t) <==> NoHashClash(t, end)
  {
    FlushOnlyDrops(t, end);
    if h :| h in t.newBlocks && h < end && h !in t.stableBlocks && HasHash(t.stableBlocks, t.newBlocks[h].hash) {
      assert h in View(t) && h !in View(Flush(t, end));
    } else {
      FlushKeepsAll(t, end);
    }
  }

  lemma FlushKeepsAll(t: Tables, end: int)
    requires Valid(t) && NoHashClash(t, end)
    ensures forall h :: h in View(t) ==> h in View(Flush(t, end))
  {
  }

  /** A flush moves the split up to its end height, never back. */
  lemma FlushMovesBoundaryUp(t: Tables, boundary: int, end: int)
    requires Valid(t) && TiersSplitAt(t, boundary)
    ensures TiersSplitAt(Flush(t, end), if boundary < end then end else boundary)
    ensures forall h :: h in Flush(t, end).stableBlocks && h !in t.stableBlocks ==> h < end
  {
  }

  /** No hash is indexed at two heights. */
  ghost predicate HashesUnique(ix: Index) {
    forall g, h :: g in ix && h in ix && ix[g].hash == ix[h].hash ==> g == h
  }

  lemma UniqueHashesNeverClash(t: Tables, end: int)
    requires HashesUnique(View(t)) && Valid(t)
    ensures NoHashClash(t, end)
  {
  }

  /** A save above every indexed height, with a hash no stable row has. */
  ghost predicate SavesOnTop(t: Tables, b: Block) {
    (forall h :: h in View(t) ==> h < b.height) && !HasHash(t.stableBlocks, b.hash)
  }

  lemma InsertRefinesSave(t: Tables, b: Block)
    requires Valid(t) && SavesOnTop(t, b)
    ensures Valid(InsertNewBlock(t, b)) && View(InsertNewBlock(t, b)) == ForkWalk.Save(View(t), b)
  {
    NewHashIsNew(t, b);
    if !HasHash(t.newBlocks, b.hash) {
      PutOnTop(t, b);
    }
  }

  lemma PutOnTop(t: Tables, b: Block)
    requires Valid(t) && SavesOnTop(t, b)
    ensures var t' := t.(newBlocks := t.newBlocks[b.height := b]); Valid(t') && View(t') == View(t)[b.height := b]
  {
    assert b.height !in View(t);
  }

  lemma NewHashIsNew(t: Tables, b: Block)
    requires Valid(t) && SavesOnTop(t, b)
    ensures HasHash(t.newBlocks, b.hash) <==> exists h :: h in View(t) && View(t)[h].hash == b.hash
  {
    if HasHash(t.newBlocks, b.hash) {
      var h :| h in t.newBlocks && t.newBlocks[h].hash == b.hash;
      assert h in View(t) && View(t)[h].hash == b.hash;
    }
  }

  lemma SaveKeepsHashesUnique(ix: Index, b: Block)
    requires HashesUnique(ix)
    ensures HashesUnique(ForkWalk.Save(ix, b))
  {
  }

  /** The flush after a save at `height` changes no lookup and moves the boundary up by at most to `height-50`. */
  lemma FlushAfterRefinesIdentity(t: Tables, height: nat, boundary: int) returns (boundary': int)
    requires Valid(t) && HashesUnique(View(t)) && TiersSplitAt(t, boundary)
    ensures Valid(FlushAfter(t, height)) && View(FlushAfter(t, height)) == View(t)
    ensures StableGrows(t, FlushAfter(t, height))
    ensures TiersSplitAt(FlushAfter(t, height), boundary')
    ensures boundary' == boundary || boundary < boundary' == height - MAX_FORK_DEPTH
  {
    var end := height - MAX_FORK_DEPTH;
    boundary' := boundary;
    if height % STABLE_FLUSH_INTERVAL == 0 {
      UniqueHashesNeverClash(t, end);
      FlushRefinesIdentity(t, end);
      FlushMovesBoundaryUp(t, boundary, end);
      boundary' := if boundary < end then end else boundary;
    }
  }

  /** Saving, flush and all, is saving in the one-map index; the boundary moves up and stable rows stay. */
  lemma SaveRefinesSave(t: Tables, b: Block, boundary: int) returns (boundary': int)
    requires Valid(t) && SavesOnTop(t, b) && HashesUnique(View(t))
    requires TiersSplitAt(t, boundary) && boundary <= b.height
    ensures Valid(SaveBlock(t, b)) && View(SaveBlock(t, b)) == ForkWalk.Save(View(t), b)
    ensures HashesUnique(View(SaveBlock(t, b)))
    ensures StableGrows(t, SaveBlock(t, b)) && TiersSplitAt(SaveBlock(t, b), boundary')
    ensures boundary' == boundary || boundary < boundary' == b.height - MAX_FORK_DEPTH
  {
    InsertRefinesSave(t, b);
    SaveKeepsHashesUnique(View(t), b);
    boundary' := FlushAfterRefinesIdentity(InsertNewBlock(t, b), b.height, boundary);
  }

  // ---------------------------------------------------------------- whole runs

  datatype Event = SaveEvent(b: Block) | ResetEvent(r: int)

  function Apply(t: Tables, e: Event): Tables {
    match e
    case SaveEvent(b) => SaveBlock(t, b)
    case ResetEvent(r) => Reset(t, r)
  }

  function ApplyToIndex(ix: Index, e: Event): Index {
    match e
    case SaveEvent(b) => ForkWalk.Save(ix, b)
    case ResetEvent(r) => Truncate(ix, r)
  }

  function RunTables(t: Tables, es: seq<Event>): Tables
    decreases |es|
  {
    if es == [] then t else RunTables(Apply(t, es[0]), es[1..])
  }

  function RunIndex(ix: Index, es: seq<Event>): Index
    decreases |es|
  {
    if es == [] then ix else RunIndex(ApplyToIndex(ix, es[0]), es[1..])
  }

  /** Saves go on top and resets stay at or above the top stable height. */
  ghost predicate Allowed(t: Tables, e: Event) {
    match e
    case SaveEvent(b) => SavesOnTop(t, b)
    case ResetEvent(r) => forall h :: h in t.stableBlocks ==> h <= r
  }

  ghost predicate AllowedRun(t: Tables, es: seq<Event>)
    decreases |es|
  {
    es == [] || (Allowed(t, es[0]) && AllowedRun(Apply(t, es[0]), es[1..]))
  }

  ghost predicate TiersApart(t: Tables) {
    forall g, h :: g in t.stableBlocks && h in t.newBlocks ==> g < h
  }

  ghost predicate Sound(t: Tables) {
    Valid(t) && TiersApart(t) && HashesUnique(View(t))
  }

  lemma StepRefines(t: Tables, e: Event)
    requires Sound(t) && Allowed(t, e)
    ensures Sound(Apply(t, e)) && View(Apply(t, e)) == ApplyToIndex(View(t), e) && StableGrows(t, Apply(t, e))
  {
    match e
    case SaveEvent(b) =>
      var boundary := ForkWalk.MaxHeight(t.stableBlocks) + 1;
      assert boundary <= b.height by {
        assert t.stableBlocks != map[] ==> boundary - 1 in View(t);
      }
      boundary := SaveRefinesSave(t, b, boundary);
    case ResetEvent(r) => ResetRefinesTruncate(t, r);
  }

  /**
   The two tiers refine one map: over every run whose resets stay at or above the top stable height, each
   lookup answers as the one-map index would, stable heights stay strictly below new ones, and stable rows stay.
   */
  lemma {:induction false} RunRefines(t: Tables, es: seq<Event>)
    requires Sound(t) && AllowedRun(t, es)
    ensures Sound(RunTables(t, es)) && View(RunTables(t, es)) == RunIndex(View(t), es)
    ensures StableGrows(t, RunTables(t, es))
    decreases |es|
  {
    if es != [] {
      StepRefines(t, es[0]);
      RunRefines(Apply(t, es[0]), es[1..]);
    }
  }

  // ---------------------------------------------------------------- deep blocks do become stable

  /** Below every indexed multiple of the flush interval, what is indexed more than the fork depth down is stable. */
  ghost predicate DeepIsStable(t: Tables) {
    forall h, m ::
      h in View(t) && m in View(t) && m % STABLE_FLUSH_INTERVAL == 0 && h < m - MAX_FORK_DEPTH ==> h in t.stableBlocks
  }

  lemma SaveKeepsDeepStable(t: Tables, b: Block)
    requires Sound(t) && SavesOnTop(t, b) && DeepIsStable(t)
    ensures DeepIsStable(SaveBlock(t, b))
  {
    var t' := SaveBlock(t, b);
    StepRefines(t, SaveEvent(b));
    InsertRefinesSave(t, b);
    SaveKeepsHashesUnique(View(t), b);
    UniqueHashesNeverClash(InsertNewBlock(t, b), b.height - MAX_FORK_DEPTH);
    forall h, m | h in View(t') && m in View(t') && m % STABLE_FLUSH_INTERVAL == 0 && h < m - MAX_FORK_DEPTH
      ensures h in t'.stableBlocks
    {
      if m == b.height {
        assert h in View(InsertNewBlock(t, b));
      }
    }
  }

  lemma StepKeepsDeepStable(t: Tables, e: Event)
    requires Sound(t) && Allowed(t, e) && DeepIsStable(t)
    ensures DeepIsStable(Apply(t, e))
  {
    match e
    case SaveEvent(b) => SaveKeepsDeepStable(t, b);
    case ResetEvent(r) => StepRefines(t, e);
  }
}
