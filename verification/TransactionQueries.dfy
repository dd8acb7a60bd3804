/**
 Whole transaction queries over the stable tables: the filters of `TagJoin` and the cursor in one statement for each
 branch, then the limits, the union and the paging of `TransactionPages`.
 */
module TransactionQueries {
  import opened ByteStrings
  import opened Listings
  import opened Options
  import TagJoin
  import opened TransactionPages

  /** The stable tables and the tag tables beside them. */
  datatype Database = Database(
    txs: set<TagJoin.Row>, txTags: set<TagJoin.TagRow>, items: set<TagJoin.Row>, itemTags: set<TagJoin.TagRow>,
    maxStableHeight: Option<nat>)

  /** A query's filters and order; `bundledIn` is `Parents` when the filters carry a list of parents. */
  datatype Request = Request(filters: TagJoin.Filters, bundledIn: BundledIn, order: SortOrder)

  function RowsOf(db: Database, source: Source): set<TagJoin.Row> {
    if source == StableTxs then db.txs else db.items
  }

  function TagsOf(db: Database, source: Source): set<TagJoin.TagRow> {
    if source == StableTxs then db.txTags else db.itemTags
  }

  function Filtered(source: Source): TagJoin.Source {
    if source == StableTxs then TagJoin.StableTxs else TagJoin.StableItems
  }

  function Max(db: Database): TagJoin.MaxDbHeight {
    TagJoin.StableMax(db.maxStableHeight)
  }

  /** Both pairs of tables are consistent, and no data item has the id that stands for a transaction. */
  ghost predicate Sound(db: Database) {
    && TagJoin.Consistent(TagJoin.StableTxs, db.txs, db.txTags, Max(db))
    && TagJoin.Consistent(TagJoin.StableItems, db.items, db.itemTags, Max(db))
    && forall r :: r in db.items ==> r.id != TX_DATA_ITEM_ID
  }

  // ---------------------------------------------------------------- one branch

  function AtPosition(source: Source, height: nat, index: nat, id: Bytes): Row {
    if source == StableTxs then Tx(height, index, id) else Item(height, index, id)
  }

  /** A stable row as the pages order it; stable rows have a position. */
  function Shown(source: Source, r: TagJoin.Row): Row {
    AtPosition(source, if r.height.Some? then r.height.value else 0, if r.index.Some? then r.index.value else 0, r.id)
  }

  /** The cursor's condition on a joined row: it reads the height and index of the table that the query sorts by. */
  predicate CursorHolds(
      order: SortOrder, source: Source, cursor: Cursor, sortBy: TagJoin.Alias, r: TagJoin.Row, a: seq<TagJoin.TagRow>) {
    var height, index := TagJoin.HeightOf(r, a, sortBy), TagJoin.IndexOf(r, a, sortBy);
    cursor.height.None? || cursor.index.None?
    || (height.Some? && index.Some?
      && AfterCursor(order, source, cursor, AtPosition(source, height.value, index.value, r.id)))
  }

  function SortBy(source: Source, f: TagJoin.Filters): TagJoin.Alias {
    TagJoin.HeightAlias(Filtered(source), TagJoin.ByJoinPriority(f.tags))
  }

  /** A choice of tag rows for which every condition of a branch holds. */
  ghost predicate Joined(
      sha1: string -> TagJoin.Hash, db: Database, q: Request, source: Source, cursor: Cursor, r: TagJoin.Row,
      a: seq<TagJoin.TagRow>)
  {
    var plan := TagJoin.Plan(sha1, Filtered(source), q.filters, Max(db));
    && TagJoin.IsChoice(TagsOf(db, source), plan.joins, a) && TagJoin.AllHold(sha1, plan.conditions, r, a)
    && CursorHolds(q.order, source, cursor, SortBy(source, q.filters), r, a)
  }

  /** The rows that a branch selects. */
  ghost function Selected(
      sha1: string -> TagJoin.Hash, db: Database, q: Request, source: Source, cursor: Cursor): set<Row> {
    set r | r in RowsOf(db, source) && (exists a :: Joined(sha1, db, q, source, cursor, r, a)) :: Shown(source, r)
  }

  /** The rows a request is about, by the meaning of its filters. */
  ghost function Matching(db: Database, q: Request, source: Source): set<Row> {
    set r | r in RowsOf(db, source) && TagJoin.Matches(Filtered(source), q.filters, TagsOf(db, source), r) ::
      Shown(source, r)
  }

  lemma ConsistentSource(db: Database, source: Source)
    requires Sound(db)
    ensures TagJoin.Consistent(Filtered(source), RowsOf(db, source), TagsOf(db, source), Max(db))
  {
  }

  /** Whichever table a query sorts by, it reads the row's own height and index there. */
  lemma SortColumnsAgree(
      sha1: string -> TagJoin.Hash, db: Database, q: Request, source: Source, cursor: Cursor, r: TagJoin.Row,
      a: seq<TagJoin.TagRow>)
    requires TagJoin.Injective(sha1) && Sound(db) && r in RowsOf(db, source)
    requires Joined(sha1, db, q, source, cursor, r, a)
    ensures TagJoin.HeightOf(r, a, SortBy(source, q.filters)) == r.height && r.height.Some?
    ensures TagJoin.IndexOf(r, a, SortBy(source, q.filters)) == r.index && r.index.Some?
  {
    ConsistentSource(db, source);
    TagJoin.ConsistentTies(sha1, Filtered(source), RowsOf(db, source), TagsOf(db, source), Max(db), r, a);
    TagJoin.PlanMeans(sha1, Filtered(source), q.filters, Max(db), r, a);
    var tags := TagJoin.ByJoinPriority(q.filters.tags);
    if tags != [] {
      assert TagJoin.IsWitness(a[0], r, tags[0]);
      TagJoin.CopiesPosition(Filtered(source), RowsOf(db, source), TagsOf(db, source), Max(db), r, a[0]);
    }
  }

  /** A row that matches and is behind the cursor. */
  ghost predicate Wanted(db: Database, q: Request, source: Source, cursor: Cursor, r: TagJoin.Row) {
    && TagJoin.Matches(Filtered(source), q.filters, TagsOf(db, source), r)
    && AfterCursor(q.order, source, cursor, Shown(source, r))
  }

  lemma JoinedMatches(
      sha1: string -> TagJoin.Hash, db: Database, q: Request, source: Source, cursor: Cursor, r: TagJoin.Row,
      a: seq<TagJoin.TagRow>)
    requires TagJoin.Injective(sha1) && Sound(db) && r in RowsOf(db, source)
    requires Joined(sha1, db, q, source, cursor, r, a)
    ensures Wanted(db, q, source, cursor, r)
  {
    ConsistentSource(db, source);
    SortColumnsAgree(sha1, db, q, source, cursor, r, a);
    assert TagJoin.Selects(sha1, TagJoin.Plan(sha1, Filtered(source), q.filters, Max(db)), TagsOf(db, source), r);
    TagJoin.PlanSelectsMatches(sha1, Filtered(source), q.filters, RowsOf(db, source), TagsOf(db, source), Max(db), r);
  }

  lemma MatchIsJoined(
      sha1: string -> TagJoin.Hash, db: Database, q: Request, source: Source, cursor: Cursor, r: TagJoin.Row)
    requires TagJoin.Injective(sha1) && Sound(db) && r in RowsOf(db, source) && Wanted(db, q, source, cursor, r)
    ensures exists a :: Joined(sha1, db, q, source, cursor, r, a)
  {
    ConsistentSource(db, source);
    TagJoin.PlanSelectsMatches(sha1, Filtered(source), q.filters, RowsOf(db, source), TagsOf(db, source), Max(db), r);
    var plan := TagJoin.Plan(sha1, Filtered(source), q.filters, Max(db));
    var a :| TagJoin.IsChoice(TagsOf(db, source), plan.joins, a) && TagJoin.AllHold(sha1, plan.conditions, r, a);
    assert Joined(sha1, db, q, source, NO_CURSOR, r, a);
    SortColumnsAgree(sha1, db, q, source, NO_CURSOR, r, a);
    assert Joined(sha1, db, q, source, cursor, r, a);
  }

  /** A branch selects exactly the matching rows behind its cursor. */
  lemma BranchSelectsMatches(sha1: string -> TagJoin.Hash, db: Database, q: Request, source: Source, cursor: Cursor)
    requires TagJoin.Injective(sha1) && Sound(db)
    ensures Selected(sha1, db, q, source, cursor)
      == set r | r in Matching(db, q, source) && AfterCursor(q.order, source, cursor, r) :: r
  {
    forall r | r in RowsOf(db, source)
      ensures (exists a :: Joined(sha1, db, q, source, cursor, r, a)) <==> Wanted(db, q, source, cursor, r)
    {
      if a :| Joined(sha1, db, q, source, cursor, r, a) {
        JoinedMatches(sha1, db, q, source, cursor, r, a);
      } else if Wanted(db, q, source, cursor, r) {
        MatchIsJoined(sha1, db, q, source, cursor, r);
      }
    }
  }

  // ---------------------------------------------------------------- the whole query

  /**
   `getGqlStableTransactions`: two filtered, sorted and limited statements, their union, the outer order and limit.
   */
  ghost function Query(
      sha1: string -> TagJoin.Hash, db: Database, q: Request, cursor: Cursor, pageSize: nat): seq<Row> {
    var less, n := Precedence(q.order), pageSize + 1;
    var txs := if q.bundledIn != Parents then Rows(Top(less, Selected(sha1, db, q, StableTxs, cursor), n)) else {};
    var items := if q.bundledIn != Null then Rows(Top(less, Selected(sha1, db, q, StableItems, cursor), n)) else {};
    Top(less, txs + items, n)
  }

  /** The matching rows of both kinds. */
  ghost function MatchingTables(db: Database, q: Request): Tables {
    Tables(Matching(db, q, StableTxs), Matching(db, q, StableItems))
  }

  lemma SameKeySameRow(db: Database, source: Source, r: TagJoin.Row, p: TagJoin.Row)
    requires Sound(db) && r in RowsOf(db, source) && p in RowsOf(db, source)
    requires SameKey(Shown(source, r), Shown(source, p))
    ensures r == p
  {
    ConsistentSource(db, source);
  }

  lemma MatchingIsWellFormed(db: Database, q: Request)
    requires Sound(db)
    ensures WellFormed(MatchingTables(db, q))
  {
    var t := MatchingTables(db, q);
    forall a, b | a in t.txs + t.items && b in t.txs + t.items && SameKey(a, b) ensures a == b {
      var source := if a.Tx? then StableTxs else StableItems;
      var r :| r in RowsOf(db, source) && Shown(source, r) == a;
      var source' := if b.Tx? then StableTxs else StableItems;
      var p :| p in RowsOf(db, source') && Shown(source', p) == b;
      if source == source' {
        SameKeySameRow(db, source, r, p);
      } else {
        assert false;
      }
    }
  }

  lemma QueryPagesMatches(sha1: string -> TagJoin.Hash, db: Database, q: Request, cursor: Cursor, pageSize: nat)
    requires TagJoin.Injective(sha1) && Sound(db)
    ensures Query(sha1, db, q, cursor, pageSize)
      == StableTransactions(q.order, MatchingTables(db, q), q.bundledIn, cursor, pageSize)
  {
    BranchSelectsMatches(sha1, db, q, StableTxs, cursor);
    BranchSelectsMatches(sha1, db, q, StableItems, cursor);
  }

  // ---------------------------------------------------------------- following the cursors

  /** What is shown when the cursor of each page's last row is followed until a page comes back empty. */
  ghost function FollowQueries(
      sha1: string -> TagJoin.Hash, db: Database, q: Request, p: Position, pageSize: nat): seq<Row>
    requires TagJoin.Injective(sha1) && Sound(db) && pageSize > 0
    decreases |Left(q.order, MatchingTables(db, q), q.bundledIn, p)|
  {
    QueryPagesMatches(sha1, db, q, PositionCursor(p), pageSize);
    MatchingIsWellFormed(db, q);
    PageAndRest(q.order, MatchingTables(db, q), q.bundledIn, p, pageSize);
    var page := Edges(Query(sha1, db, q, PositionCursor(p), pageSize), pageSize);
    if page == [] then [] else page + FollowQueries(sha1, db, q, LastOf(page), pageSize)
  }

  lemma {:induction false} FollowQueriesFrom(
      sha1: string -> TagJoin.Hash, db: Database, q: Request, p: Position, pageSize: nat)
    requires TagJoin.Injective(sha1) && Sound(db) && pageSize > 0
    ensures WellFormed(MatchingTables(db, q))
    ensures FollowQueries(sha1, db, q, p, pageSize) == Follow(q.order, MatchingTables(db, q), q.bundledIn, p, pageSize)
    decreases |Left(q.order, MatchingTables(db, q), q.bundledIn, p)|
  {
    QueryPagesMatches(sha1, db, q, PositionCursor(p), pageSize);
    MatchingIsWellFormed(db, q);
    PageAndRest(q.order, MatchingTables(db, q), q.bundledIn, p, pageSize);
    var page := Page(q.order, MatchingTables(db, q), q.bundledIn, p, pageSize);
    if page != [] {
      FollowQueriesFrom(sha1, db, q, LastOf(page), pageSize);
    }
  }

  /**
   Following the cursors of a filtered query lists exactly the stable rows that match the request's filters, each once
   and in the order asked for.
   */
  lemma FollowingListsEveryMatch(sha1: string -> TagJoin.Hash, db: Database, q: Request, pageSize: nat)
    requires TagJoin.Injective(sha1) && Sound(db) && pageSize > 0
    ensures var shown := FollowQueries(sha1, db, q, Start, pageSize);
      && Rows(shown) == (if q.bundledIn != Parents then Matching(db, q, StableTxs) else {})
                      + (if q.bundledIn != Null then Matching(db, q, StableItems) else {})
      && |shown| == |Rows(shown)| && Ascending(Precedence(q.order), shown)
  {
    FollowQueriesFrom(sha1, db, q, Start, pageSize);
    FollowingListsEverything(q.order, MatchingTables(db, q), q.bundledIn, pageSize);
  }
}
