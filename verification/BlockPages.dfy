/** Paging through the blocks: one query per tier, concatenated, with the height of the last edge as the cursor. */
module BlockPages {
  import opened Options
  import opened Chain
  import opened Listings
  import BlockTables

  datatype SortOrder = HeightDesc | HeightAsc

  /** Negative bounds mean no bound. */
  datatype Filters = Filters(ids: seq<Hash>, minHeight: int, maxHeight: int)

  /** The rows of the two block tables. */
  datatype Tiers = Tiers(stableRows: set<Block>, newRows: set<Block>)

  predicate Precedes(order: SortOrder, a: Block, b: Block) {
    match order
    case HeightDesc => a.height > b.height
    case HeightAsc => a.height < b.height
  }

  function ByHeight(order: SortOrder): Order<Block> {
    (a, b) => Precedes(order, a, b)
  }

  /** A height that the cursor holds is compared only if it is not 0. */
  predicate Passes(order: SortOrder, f: Filters, cursor: Option<nat>, b: Block) {
    && (f.ids != [] ==> b.hash in f.ids)
    && (f.minHeight >= 0 ==> b.height >= f.minHeight)
    && (f.maxHeight >= 0 ==> b.height <= f.maxHeight)
    && (cursor.Some? && cursor.value != 0 ==>
          match order
          case HeightDesc => b.height < cursor.value
          case HeightAsc => b.height > cursor.value)
  }

  ghost function Passing(order: SortOrder, rows: set<Block>, f: Filters, cursor: Option<nat>): set<Block> {
    set b | b in rows && Passes(order, f, cursor, b)
  }

  /** One tier's query. */
  ghost function Query(order: SortOrder, rows: set<Block>, f: Filters, cursor: Option<nat>, pageSize: nat): seq<Block> {
    Top(ByHeight(order), Passing(order, rows, f, cursor), pageSize + 1)
  }

  /** The second tier is asked only for what lies beyond the last row of the first. */
  function Narrowed(order: SortOrder, f: Filters, found: seq<Block>): Filters {
    if found == [] then f
    else match order
      case HeightDesc => f.(maxHeight := found[|found| - 1].height - 1)
      case HeightAsc => f.(minHeight := found[|found| - 1].height + 1)
  }

  function FirstTier(order: SortOrder, t: Tiers): set<Block> {
    if order == HeightDesc then t.newRows else t.stableRows
  }

  function SecondTier(order: SortOrder, t: Tiers): set<Block> {
    if order == HeightDesc then t.stableRows else t.newRows
  }

  /** `getGqlBlocks` before the page is cut. */
  ghost function Found(order: SortOrder, t: Tiers, f: Filters, cursor: Option<nat>, pageSize: nat): seq<Block> {
    var first := Query(order, FirstTier(order, t), f, cursor, pageSize);
    if |first| < pageSize then first + Query(order, SecondTier(order, t), Narrowed(order, f, first), cursor, pageSize)
    else first
  }

  ghost function Edges(order: SortOrder, t: Tiers, f: Filters, cursor: Option<nat>, pageSize: nat): seq<Block> {
    Cut(Found(order, t, f, cursor, pageSize), pageSize)
  }

  ghost predicate HasNextPage(order: SortOrder, t: Tiers, f: Filters, cursor: Option<nat>, pageSize: nat) {
    |Found(order, t, f, cursor, pageSize)| > pageSize
  }

  /** Stable heights lie below new ones, and a height names one block. */
  ghost predicate WellFormed(t: Tiers) {
    && (forall a, b :: a in t.stableRows && b in t.newRows ==> a.height < b.height)
    && (forall a, b :: a in t.stableRows && b in t.stableRows && a.height == b.height ==> a == b)
    && (forall a, b :: a in t.newRows && b in t.newRows && a.height == b.height ==> a == b)
  }

  /** The tables of every run are of this kind. */
  lemma SoundTablesAreWellFormed(t: BlockTables.Tables)
    requires BlockTables.Sound(t)
    ensures WellFormed(
      Tiers(set h | h in t.stableBlocks :: t.stableBlocks[h], set h | h in t.newBlocks :: t.newBlocks[h]))
  {
  }

  /** The merged, filtered rows. */
  ghost function Matching(order: SortOrder, t: Tiers, f: Filters, cursor: Option<nat>): set<Block> {
    Passing(order, FirstTier(order, t), f, cursor) + Passing(order, SecondTier(order, t), f, cursor)
  }

  lemma HeightsSort(order: SortOrder, t: Tiers, rows: set<Block>)
    requires WellFormed(t) && rows <= t.stableRows + t.newRows
    ensures Sorts(ByHeight(order), rows)
  {
  }

  /** Narrowing the second query changes nothing about it. */
  lemma NarrowingIsFree(order: SortOrder, t: Tiers, f: Filters, cursor: Option<nat>, found: seq<Block>)
    requires WellFormed(t) && Rows(found) <= Passing(order, FirstTier(order, t), f, cursor)
    ensures Passing(order, SecondTier(order, t), Narrowed(order, f, found), cursor)
      == Passing(order, SecondTier(order, t), f, cursor)
  {
    if found != [] {
      var last := found[|found| - 1];
      assert last in Rows(found);
      assert last in FirstTier(order, t) && Passes(order, f, cursor, last);
    }
  }

  /** The first tier's rows all come before the second's. */
  lemma TiersInOrder(order: SortOrder, t: Tiers, f: Filters, cursor: Option<nat>)
    requires WellFormed(t)
    ensures Sorts(ByHeight(order), Matching(order, t, f, cursor))
    ensures AllBefore(ByHeight(order), Passing(order, FirstTier(order, t), f, cursor),
      Passing(order, SecondTier(order, t), f, cursor))
    ensures Passing(order, FirstTier(order, t), f, cursor) !! Passing(order, SecondTier(order, t), f, cursor)
  {
    HeightsSort(order, t, Matching(order, t, f, cursor));
  }

  /** The rows found are those of the two tiers queried in turn. */
  lemma FoundIsInTurn(order: SortOrder, t: Tiers, f: Filters, cursor: Option<nat>, pageSize: nat)
    requires WellFormed(t)
    ensures var a, b := Passing(order, FirstTier(order, t), f, cursor), Passing(order, SecondTier(order, t), f, cursor);
      Found(order, t, f, cursor, pageSize) == InTurn(ByHeight(order), a, b, pageSize)
  {
    FirstQuery(order, t, f, cursor, pageSize);
    if |Passing(order, FirstTier(order, t), f, cursor)| < pageSize {
      NarrowingIsFree(order, t, f, cursor, Query(order, FirstTier(order, t), f, cursor, pageSize));
    }
  }

  lemma FirstQuery(order: SortOrder, t: Tiers, f: Filters, cursor: Option<nat>, pageSize: nat)
    ensures var a, first := Passing(order, FirstTier(order, t), f, cursor),
      Query(order, FirstTier(order, t), f, cursor, pageSize);
      && Rows(first) <= a && (|first| < pageSize <==> |a| < pageSize)
      && (|a| < pageSize ==> first == Listing(ByHeight(order), a))
  {
    var a := Passing(order, FirstTier(order, t), f, cursor);
    TopIsListing(ByHeight(order), a, pageSize + 1);
    TopWithin(ByHeight(order), a, pageSize + 1);
  }

  /** Each page is the first `pageSize` rows of the merged, filtered, sorted block list. */
  lemma PageIsTop(order: SortOrder, t: Tiers, f: Filters, cursor: Option<nat>, pageSize: nat)
    requires WellFormed(t)
    ensures Edges(order, t, f, cursor, pageSize) == Top(ByHeight(order), Matching(order, t, f, cursor), pageSize)
  {
    FoundIsInTurn(order, t, f, cursor, pageSize);
    TiersInOrder(order, t, f, cursor);
    var a, b := Passing(order, FirstTier(order, t), f, cursor), Passing(order, SecondTier(order, t), f, cursor);
    InTurnIsTop(ByHeight(order), a, b, pageSize);
  }

  /**
   A further page is announced only if there is one, and whenever there is one except when the first tier matches
   exactly `pageSize` rows.
   */
  lemma NextPageIsReal(order: SortOrder, t: Tiers, f: Filters, cursor: Option<nat>, pageSize: nat)
    requires WellFormed(t)
    ensures HasNextPage(order, t, f, cursor, pageSize)
      <==> |Matching(order, t, f, cursor)| > pageSize && |Passing(order, FirstTier(order, t), f, cursor)| != pageSize
  {
    FoundIsInTurn(order, t, f, cursor, pageSize);
    TiersInOrder(order, t, f, cursor);
    var a, b := Passing(order, FirstTier(order, t), f, cursor), Passing(order, SecondTier(order, t), f, cursor);
    InTurnFindsMore(ByHeight(order), a, b, pageSize);
  }

  // ---------------------------------------------------------------- following the cursors

  /** The cursor of a row leaves exactly the rows after it, unless the row is at height 0. */
  lemma CursorContinues(order: SortOrder, t: Tiers, f: Filters, last: Block)
    requires WellFormed(t) && last in Matching(order, t, f, None)
    ensures Matching(order, t, f, Some(last.height)) == After(ByHeight(order), Matching(order, t, f, None), last)
      <==> last.height != 0
    ensures last.height == 0 ==> Matching(order, t, f, Some(last.height)) == Matching(order, t, f, None)
  {
    var all := Matching(order, t, f, None);
    var after := After(ByHeight(order), all, last);
    assert last !in after;
    if last.height == 0 {
      assert Matching(order, t, f, Some(0)) == all;
    } else {
      assert Matching(order, t, f, Some(last.height)) == after;
    }
  }

  /** A position of the client: at the beginning, or after a row shown. */
  datatype Position = Start | AtRow(row: Block)

  function Cursor(p: Position): Option<nat> {
    if p.Start? then None else Some(p.row.height)
  }

  ghost function Left(order: SortOrder, t: Tiers, f: Filters, p: Position): set<Block> {
    var all := Matching(order, t, f, None);
    if p.Start? then all else After(ByHeight(order), all, p.row)
  }

  function LastOf(page: seq<Block>): Position
    requires page != []
  {
    AtRow(page[|page| - 1])
  }

  /** Positions whose cursor is compared. */
  ghost predicate Usable(order: SortOrder, t: Tiers, f: Filters, p: Position) {
    p.AtRow? ==> p.row.height != 0 && p.row in Matching(order, t, f, None)
  }

  lemma UsableLeaves(order: SortOrder, t: Tiers, f: Filters, p: Position)
    requires WellFormed(t) && Usable(order, t, f, p)
    ensures Matching(order, t, f, Cursor(p)) == Left(order, t, f, p) && Sorts(ByHeight(order), Left(order, t, f, p))
  {
    if p.AtRow? {
      CursorContinues(order, t, f, p.row);
    }
    HeightsSort(order, t, Left(order, t, f, p));
  }

  ghost function Page(order: SortOrder, t: Tiers, f: Filters, p: Position, pageSize: nat): seq<Block> {
    Edges(order, t, f, Cursor(p), pageSize)
  }

  /** A page at a usable position starts the rest of the listing. */
  lemma PageAndRest(order: SortOrder, t: Tiers, f: Filters, p: Position, pageSize: nat)
    requires WellFormed(t) && pageSize > 0 && Usable(order, t, f, p)
    ensures Page(order, t, f, p, pageSize) == Top(ByHeight(order), Left(order, t, f, p), pageSize)
    ensures Page(order, t, f, p, pageSize) == [] ==> Left(order, t, f, p) == {}
    ensures Page(order, t, f, p, pageSize) != [] ==>
      var last := LastOf(Page(order, t, f, p, pageSize));
      && last.row in Left(order, t, f, p)
      && |Left(order, t, f, last)| < |Left(order, t, f, p)|
      && Listing(ByHeight(order), Left(order, t, f, p))
        == Page(order, t, f, p, pageSize) + Listing(ByHeight(order), Left(order, t, f, last))
  {
    UsableLeaves(order, t, f, p);
    PageIsTop(order, t, f, Cursor(p), pageSize);
    RestAfter(order, Matching(order, t, f, None), p, Left(order, t, f, p), pageSize);
  }

  lemma RestAfter(order: SortOrder, all: set<Block>, p: Position, rows: set<Block>, pageSize: nat)
    requires pageSize > 0 && Sorts(ByHeight(order), rows)
    requires rows == if p.Start? then all else After(ByHeight(order), all, p.row)
    ensures Top(ByHeight(order), rows, pageSize) == [] ==> rows == {}
    ensures var page := Top(ByHeight(order), rows, pageSize);
      page != [] ==>
        var rest := After(ByHeight(order), all, page[|page| - 1]);
        page[|page| - 1] in rows && |rest| < |rows|
          && Listing(ByHeight(order), rows) == page + Listing(ByHeight(order), rest)
  {
    var less := ByHeight(order);
    PageSplits(less, rows, pageSize);
    var page := Top(less, rows, pageSize);
    if page != [] {
      LastIn(less, rows, pageSize);
      AfterAfter(order, all, p, page[|page| - 1]);
    }
  }

  lemma AfterAfter(order: SortOrder, all: set<Block>, p: Position, last: Block)
    requires p.AtRow? ==> Precedes(order, p.row, last)
    ensures After(ByHeight(order), if p.Start? then all else After(ByHeight(order), all, p.row), last)
      == After(ByHeight(order), all, last)
  {
  }

  /** The blocks shown when last-edge cursors are followed until a page is empty or ends at genesis. */
  ghost function Follow(order: SortOrder, t: Tiers, f: Filters, p: Position, pageSize: nat): seq<Block>
    requires WellFormed(t) && pageSize > 0 && Usable(order, t, f, p)
    decreases |Left(order, t, f, p)|
  {
    PageAndRest(order, t, f, p, pageSize);
    var page := Page(order, t, f, p, pageSize);
    if page == [] || LastOf(page).row.height == 0 then page else page + Follow(order, t, f, LastOf(page), pageSize)
  }

  lemma NothingBelowGenesis(t: Tiers, f: Filters, last: Block)
    requires last.height == 0
    ensures Left(HeightDesc, t, f, AtRow(last)) == {}
  {
  }

  /** Descending, nothing follows genesis. */
  lemma {:induction false} FollowDescending(t: Tiers, f: Filters, p: Position, pageSize: nat)
    requires WellFormed(t) && pageSize > 0 && Usable(HeightDesc, t, f, p)
    ensures Follow(HeightDesc, t, f, p, pageSize) == Listing(ByHeight(HeightDesc), Left(HeightDesc, t, f, p))
    decreases |Left(HeightDesc, t, f, p)|
  {
    PageAndRest(HeightDesc, t, f, p, pageSize);
    var page := Page(HeightDesc, t, f, p, pageSize);
    if page != [] {
      if LastOf(page).row.height == 0 {
        NothingBelowGenesis(t, f, LastOf(page).row);
      } else {
        FollowDescending(t, f, LastOf(page), pageSize);
      }
    }
  }

  /** Ascending, a client past the first row never meets genesis again. */
  lemma {:induction false} FollowAscending(t: Tiers, f: Filters, p: Position, pageSize: nat)
    requires WellFormed(t) && pageSize > 0 && Usable(HeightAsc, t, f, p) && p.AtRow?
    ensures Follow(HeightAsc, t, f, p, pageSize) == Listing(ByHeight(HeightAsc), Left(HeightAsc, t, f, p))
    decreases |Left(HeightAsc, t, f, p)|
  {
    PageAndRest(HeightAsc, t, f, p, pageSize);
    var page := Page(HeightAsc, t, f, p, pageSize);
    if page != [] {
      FollowAscending(t, f, LastOf(page), pageSize);
    }
  }

  /** The ascending client is stuck at genesis: it is alone on the first page and more blocks match. */
  ghost predicate Stuck(order: SortOrder, t: Tiers, f: Filters, pageSize: nat) {
    && order == HeightAsc && pageSize == 1 && |Matching(order, t, f, None)| > 1
    && exists b :: b in Matching(order, t, f, None) && b.height == 0
  }

  /** Ascending, a page that ends at genesis is genesis alone, and a page that starts there has it first. */
  lemma GenesisIsFirst(rows: set<Block>, pageSize: nat)
    requires pageSize > 0 && Sorts(ByHeight(HeightAsc), rows)
    ensures var page := Top(ByHeight(HeightAsc), rows, pageSize);
      && (page != [] && page[|page| - 1].height == 0 ==> |page| == 1)
      && (forall b :: b in rows && b.height == 0 ==> page != [] && page[0] == b)
      && |page| == (if pageSize < |rows| then pageSize else |rows|)
      && (page != [] ==> page[0] in rows)
  {
    var less := ByHeight(HeightAsc);
    TopAscending(less, rows, pageSize);
    TopLength(less, rows, pageSize);
    TopWithin(less, rows, pageSize);
    var page := Top(less, rows, pageSize);
    if page != [] {
      assert page[0] in page;
      assert |page| > 1 ==> less(page[0], page[|page| - 1]);
    }
    forall b | b in rows && b.height == 0 ensures page != [] && page[0] == b {
      assert IsFirst(less, rows, b);
      FirstIs(less, rows, b);
    }
  }

  lemma StartEndsAtGenesis(t: Tiers, f: Filters, pageSize: nat)
    requires WellFormed(t) && pageSize > 0
    requires var page := Page(HeightAsc, t, f, Start, pageSize); page != [] && LastOf(page).row.height == 0
    ensures Follow(HeightAsc, t, f, Start, pageSize) == Listing(ByHeight(HeightAsc), Left(HeightAsc, t, f, Start))
      <==> |Left(HeightAsc, t, f, Start)| == 1
    ensures Stuck(HeightAsc, t, f, pageSize) <==> |Left(HeightAsc, t, f, Start)| != 1
  {
    var less, rows := ByHeight(HeightAsc), Left(HeightAsc, t, f, Start);
    PageAndRest(HeightAsc, t, f, Start, pageSize);
    UsableLeaves(HeightAsc, t, f, Start);
    GenesisIsFirst(rows, pageSize);
    TopIsListing(less, rows, pageSize);
  }

  lemma StartGoesOn(t: Tiers, f: Filters, pageSize: nat)
    requires WellFormed(t) && pageSize > 0
    requires var page := Page(HeightAsc, t, f, Start, pageSize); page != [] && LastOf(page).row.height != 0
    ensures Follow(HeightAsc, t, f, Start, pageSize) == Listing(ByHeight(HeightAsc), Left(HeightAsc, t, f, Start))
    ensures !Stuck(HeightAsc, t, f, pageSize)
  {
    var page := Page(HeightAsc, t, f, Start, pageSize);
    PageAndRest(HeightAsc, t, f, Start, pageSize);
    FollowAscending(t, f, LastOf(page), pageSize);
    UsableLeaves(HeightAsc, t, f, Start);
    GenesisIsFirst(Left(HeightAsc, t, f, Start), pageSize);
  }

  /**
   Following last-edge cursors lists every matching block exactly once, in order, exactly when the client is not
   stuck.
   */
  lemma FollowingListsEverything(order: SortOrder, t: Tiers, f: Filters, pageSize: nat)
    requires WellFormed(t) && pageSize > 0
    ensures Follow(order, t, f, Start, pageSize) == Listing(ByHeight(order), Matching(order, t, f, None))
      <==> !Stuck(order, t, f, pageSize)
  {
    if order == HeightDesc {
      FollowDescending(t, f, Start, pageSize);
    } else {
      var page := Page(HeightAsc, t, f, Start, pageSize);
      if page == [] {
        PageAndRest(HeightAsc, t, f, Start, pageSize);
      } else if LastOf(page).row.height == 0 {
        StartEndsAtGenesis(t, f, pageSize);
      } else {
        StartGoesOn(t, f, pageSize);
      }
    }
  }

  /** That listing holds each block of either tier that satisfies the filters once, in order. */
  lemma ListingIsComplete(order: SortOrder, t: Tiers, f: Filters)
    requires WellFormed(t)
    ensures var listing := Listing(ByHeight(order), Matching(order, t, f, None));
      && |listing| == |Rows(listing)| && Ascending(ByHeight(order), listing)
      && forall b :: b in listing <==>
           && (b in t.stableRows || b in t.newRows) && (f.ids == [] || b.hash in f.ids)
           && f.minHeight <= b.height && (f.maxHeight < 0 || b.height <= f.maxHeight)
  {
    var rows := Matching(order, t, f, None);
    HeightsSort(order, t, rows);
    Listings.ListingIsComplete(ByHeight(order), rows);
    assert forall b :: b in Listing(ByHeight(order), rows) <==> b in Rows(Listing(ByHeight(order), rows));
  }

  // ---------------------------------------------------------------- between the copy and the deletions of a flush

  /** A height names one block of each tier; a block may be in both. */
  ghost predicate MayOverlap(t: Tiers) {
    && (forall a, b :: a in t.stableRows && b in t.stableRows && a.height == b.height ==> a == b)
    && (forall a, b :: a in t.newRows && b in t.newRows && a.height == b.height ==> a == b)
  }

  lemma QueryIsOrdered(order: SortOrder, rows: set<Block>, f: Filters, cursor: Option<nat>, pageSize: nat)
    requires forall a, b :: a in rows && b in rows && a.height == b.height ==> a == b
    ensures var found := Query(order, rows, f, cursor, pageSize);
      Ascending(ByHeight(order), found) && forall b :: b in found ==> Passes(order, f, cursor, b)
  {
    var passing := Passing(order, rows, f, cursor);
    assert Sorts(ByHeight(order), passing);
    TopAscending(ByHeight(order), passing, pageSize + 1);
    TopWithin(ByHeight(order), passing, pageSize + 1);
    forall b | b in Query(order, rows, f, cursor, pageSize) ensures Passes(order, f, cursor, b) {
      assert b in Rows(Query(order, rows, f, cursor, pageSize));
    }
  }

  lemma InOrder(order: SortOrder, first: seq<Block>, second: seq<Block>)
    requires Ascending(ByHeight(order), first) && Ascending(ByHeight(order), second) && first != []
    requires forall b :: b in second ==> Precedes(order, first[|first| - 1], b)
    ensures Ascending(ByHeight(order), first + second)
  {
    var all, last := first + second, first[|first| - 1];
    forall i, j | 0 <= i < j < |all| ensures ByHeight(order)(all[i], all[j]) {
      if i < |first| <= j {
        assert all[j] in second && (i < |first| - 1 ==> ByHeight(order)(first[i], last));
      }
    }
  }

  /**
   A descending query has reached genesis in the new tier, so the stable tier is asked without an upper bound, and has a
   row to show.
   */
  ghost predicate PastGenesis(order: SortOrder, t: Tiers, f: Filters, cursor: Option<nat>, pageSize: nat) {
    var first := Query(order, t.newRows, f, cursor, pageSize);
    && order == HeightDesc && 0 < |first| < pageSize && first[|first| - 1].height == 0
    && Passing(order, t.stableRows, f.(maxHeight := -1), cursor) != {}
  }

  /** One ordered part behind another, each of whose rows comes after the first part's last, unless that is genesis. */
  lemma PartsInOrder(order: SortOrder, first: seq<Block>, second: seq<Block>)
    requires Ascending(ByHeight(order), first) && Ascending(ByHeight(order), second)
    requires first != [] && !(order == HeightDesc && first[|first| - 1].height == 0) ==>
      forall b :: b in second ==> Precedes(order, first[|first| - 1], b)
    ensures Ascending(ByHeight(order), first + second)
      <==> !(order == HeightDesc && first != [] && first[|first| - 1].height == 0 && second != [])
  {
    if first == [] {
      assert first + second == second;
    } else if second == [] {
      assert first + second == first;
    } else if order == HeightDesc && first[|first| - 1].height == 0 {
      var all, i, j := first + second, |first| - 1, |first|;
      assert all[i] == first[i] && all[j] == second[0] && !ByHeight(order)(all[i], all[j]);
    } else {
      InOrder(order, first, second);
    }
  }

  /**
   Narrowing is what keeps a block that is in both tiers from being shown twice: without any assumption on how the tiers
   meet, what is found is strictly ordered exactly when the query does not go on past genesis.
   */
  lemma OverlapIsNotRepeated(order: SortOrder, t: Tiers, f: Filters, cursor: Option<nat>, pageSize: nat)
    requires MayOverlap(t)
    ensures Ascending(ByHeight(order), Found(order, t, f, cursor, pageSize))
      <==> !PastGenesis(order, t, f, cursor, pageSize)
  {
    var first := Query(order, FirstTier(order, t), f, cursor, pageSize);
    var narrowed := Narrowed(order, f, first);
    QueryIsOrdered(order, FirstTier(order, t), f, cursor, pageSize);
    QueryIsOrdered(order, SecondTier(order, t), narrowed, cursor, pageSize);
    TopLength(ByHeight(order), Passing(order, SecondTier(order, t), narrowed, cursor), pageSize + 1);
    PartsInOrder(order, first, Query(order, SecondTier(order, t), narrowed, cursor, pageSize));
  }
}
