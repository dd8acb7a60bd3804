/**
 Keyset pagination of the stable transactions and data items: two limited queries, their union, a cursor taken from
 the last row shown.
 */
module TransactionPages {
  import opened ByteStrings
  import Lexicographic
  import opened Listings
  import opened Options

  /** The data item id column of a transaction. */
  const TX_DATA_ITEM_ID: Bytes := [0]

  /** A row of `stable_transactions` or of `stable_data_items`, by what orders it. */
  datatype Row = Tx(height: nat, index: nat, id: Bytes) | Item(height: nat, index: nat, id: Bytes)

  function DataItemId(r: Row): Bytes {
    match r
    case Tx(_, _, _) => TX_DATA_ITEM_ID
    case Item(_, _, id) => id
  }

  const SMALLER: (byte, byte) -> bool := (x, y) => x < y

  predicate BytesLess(a: Bytes, b: Bytes) {
    Lexicographic.Less(SMALLER, a, b)
  }

  /** The strict order on (height, block transaction index, data item id). */
  predicate KeyLess(a: Row, b: Row) {
    || a.height < b.height
    || (a.height == b.height && a.index < b.index)
    || (a.height == b.height && a.index == b.index && BytesLess(DataItemId(a), DataItemId(b)))
  }

  predicate SameKey(a: Row, b: Row) {
    a.height == b.height && a.index == b.index && DataItemId(a) == DataItemId(b)
  }

  datatype SortOrder = HeightDesc | HeightAsc

  /** Whether `a` is listed before `b`. */
  predicate Precedes(order: SortOrder, a: Row, b: Row) {
    match order
    case HeightDesc => KeyLess(b, a)
    case HeightAsc => KeyLess(a, b)
  }

  function Precedence(order: SortOrder): Order<Row> {
    (a, b) => Precedes(order, a, b)
  }

  /** A height and index name one transaction of a block, and an id one data item. */
  ghost predicate KeysUnique(rows: set<Row>) {
    forall a, b :: a in rows && b in rows && SameKey(a, b) ==> a == b
  }

  lemma PrecedesIsStrict(order: SortOrder, a: Row, b: Row, c: Row)
    ensures !Precedes(order, a, a)
    ensures Precedes(order, a, b) || Precedes(order, b, a) || SameKey(a, b)
    ensures Precedes(order, a, b) && Precedes(order, b, c) ==> Precedes(order, a, c)
  {
    Lexicographic.LessIsStrict(SMALLER, DataItemId(a), DataItemId(b), DataItemId(c));
    Lexicographic.LessIsStrict(SMALLER, DataItemId(c), DataItemId(b), DataItemId(a));
  }

  lemma KeysSort(order: SortOrder, rows: set<Row>)
    requires KeysUnique(rows)
    ensures Sorts(Precedence(order), rows)
  {
    var less := Precedence(order);
    forall a ensures !less(a, a) {
      PrecedesIsStrict(order, a, a, a);
    }
    forall a, b, c ensures Chains(less, a, b, c) {
      PrecedesIsStrict(order, a, b, c);
    }
    forall a, b | a in rows && b in rows ensures a == b || less(a, b) || less(b, a) {
      PrecedesIsStrict(order, a, b, b);
    }
  }

  // ---------------------------------------------------------------- the query

  /** A decoded cursor; every part may be null. */
  datatype Cursor = Cursor(height: Option<nat>, index: Option<nat>, dataItemId: Option<Bytes>)

  const NO_CURSOR := Cursor(None, None, None)

  function CursorOf(r: Row): Cursor {
    Cursor(Some(r.height), Some(r.index), Some(DataItemId(r)))
  }

  datatype Source = StableTxs | StableItems

  /** The cursor's `WHERE` clause, as each branch writes it. */
  predicate AfterCursor(order: SortOrder, source: Source, cursor: Cursor, r: Row) {
    if cursor.height.None? || cursor.index.None? then true
    else
      var height, index := cursor.height.value, cursor.index.value;
      var dataItemId := if cursor.dataItemId.Some? then cursor.dataItemId.value else [0];
      var field := if source == StableItems then r.id else [0];
      match order
      case HeightDesc =>
        r.height <= height
        && (r.height < height
            || (r.height == height && r.index < index)
            || (r.height == height && r.index == index && BytesLess(field, dataItemId)))
      case HeightAsc =>
        r.height >= height
        && (r.height > height
            || (r.height == height && r.index > index)
            || (r.height == height && r.index == index && BytesLess(dataItemId, field)))
  }

  /** The `bundledIn` argument: undefined asks for everything, null for transactions, a list for data items. */
  datatype BundledIn = Undefined | Null | Parents

  /** The tables after every filter but the cursor's. */
  datatype Tables = Tables(txs: set<Row>, items: set<Row>)

  ghost predicate WellFormed(t: Tables) {
    && (forall r :: r in t.txs ==> r.Tx?)
    && (forall r :: r in t.items ==> r.Item?)
    && KeysUnique(t.txs + t.items)
  }

  /** The rows a query is about. */
  function Visible(t: Tables, bundledIn: BundledIn): set<Row> {
    match bundledIn
    case Undefined => t.txs + t.items
    case Null => t.txs
    case Parents => t.items
  }

  /** One branch: its rows after the cursor, in order, limited. */
  ghost function Branch(order: SortOrder, source: Source, rows: set<Row>, cursor: Cursor, pageSize: nat): seq<Row> {
    Top(Precedence(order), set r | r in rows && AfterCursor(order, source, cursor, r) :: r, pageSize + 1)
  }

  /** `getGqlStableTransactions`: the branches it includes, their union, the outer order and limit. */
  ghost function StableTransactions(
      order: SortOrder, t: Tables, bundledIn: BundledIn, cursor: Cursor, pageSize: nat): seq<Row> {
    var txs := if bundledIn != Parents then Rows(Branch(order, StableTxs, t.txs, cursor, pageSize)) else {};
    var items := if bundledIn != Null then Rows(Branch(order, StableItems, t.items, cursor, pageSize)) else {};
    Top(Precedence(order), txs + items, pageSize + 1)
  }

  /** The edges shown of the rows found. */
  function Edges(rows: seq<Row>, pageSize: nat): seq<Row> {
    Cut(rows, pageSize)
  }

  predicate HasNextPage(rows: seq<Row>, pageSize: nat) {
    |rows| > pageSize
  }

  /** A cursor the server gave out: none yet, or that of a row. */
  datatype Position = Start | AtRow(row: Row)

  function PositionCursor(p: Position): Cursor {
    match p
    case Start => NO_CURSOR
    case AtRow(r) => CursorOf(r)
  }

  ghost function Remaining(order: SortOrder, rows: set<Row>, p: Position): set<Row> {
    match p
    case Start => rows
    case AtRow(last) => After(Precedence(order), rows, last)
  }

  /** The three-way predicate is the strict key order, with transactions at `x'00'`. */
  lemma CursorIsStrictOrder(order: SortOrder, last: Row, r: Row)
    ensures AfterCursor(order, if r.Tx? then StableTxs else StableItems, CursorOf(last), r)
      <==> Precedes(order, last, r)
  {
  }

  /** What the cursor leaves of a table of one kind of row. */
  lemma CursorLeaves(order: SortOrder, source: Source, rows: set<Row>, p: Position)
    requires forall r :: r in rows ==> (r.Tx? <==> source == StableTxs)
    ensures (set r | r in rows && AfterCursor(order, source, PositionCursor(p), r) :: r) == Remaining(order, rows, p)
  {
    if p.AtRow? {
      forall r | r in rows ensures AfterCursor(order, source, CursorOf(p.row), r) <==> Precedence(order)(p.row, r) {
        CursorIsStrictOrder(order, p.row, r);
      }
    }
  }

  lemma KeysUniqueLess(rows: set<Row>, fewer: set<Row>)
    requires KeysUnique(rows) && fewer <= rows
    ensures KeysUnique(fewer)
  {
  }

  /** A query answers with the first `pageSize + 1` remaining visible rows. */
  lemma QueryIsTop(order: SortOrder, t: Tables, bundledIn: BundledIn, p: Position, pageSize: nat)
    requires WellFormed(t)
    ensures StableTransactions(order, t, bundledIn, PositionCursor(p), pageSize)
      == Top(Precedence(order), Remaining(order, Visible(t, bundledIn), p), pageSize + 1)
  {
    var less, n := Precedence(order), pageSize + 1;
    CursorLeaves(order, StableTxs, t.txs, p);
    CursorLeaves(order, StableItems, t.items, p);
    var a := if bundledIn != Parents then Remaining(order, t.txs, p) else {};
    var b := if bundledIn != Null then Remaining(order, t.items, p) else {};
    assert a + b == Remaining(order, Visible(t, bundledIn), p);
    KeysUniqueLess(t.txs + t.items, a + b);
    KeysSort(order, a + b);
    LimitPushdown(less, a, b, n);
    assert Rows(Top(less, {}, n)) == {};
  }

  // ---------------------------------------------------------------- following the cursors

  ghost function Left(order: SortOrder, t: Tables, bundledIn: BundledIn, p: Position): set<Row> {
    Remaining(order, Visible(t, bundledIn), p)
  }

  lemma LeftSorts(order: SortOrder, t: Tables, bundledIn: BundledIn, p: Position)
    requires WellFormed(t)
    ensures Sorts(Precedence(order), Left(order, t, bundledIn, p))
  {
    KeysUniqueLess(t.txs + t.items, Left(order, t, bundledIn, p));
    KeysSort(order, Left(order, t, bundledIn, p));
  }

  /** A page is the first `pageSize` remaining rows, and another is announced exactly when rows remain after it. */
  lemma PageIsTop(order: SortOrder, t: Tables, bundledIn: BundledIn, p: Position, pageSize: nat)
    requires WellFormed(t)
    ensures Page(order, t, bundledIn, p, pageSize) == Top(Precedence(order), Left(order, t, bundledIn, p), pageSize)
    ensures HasNextPage(StableTransactions(order, t, bundledIn, PositionCursor(p), pageSize), pageSize)
      <==> |Left(order, t, bundledIn, p)| > pageSize
  {
    QueryIsTop(order, t, bundledIn, p, pageSize);
    LeftSorts(order, t, bundledIn, p);
    OneMore(Precedence(order), Left(order, t, bundledIn, p), pageSize);
  }

  /** The page at `p`. */
  ghost function Page(order: SortOrder, t: Tables, bundledIn: BundledIn, p: Position, pageSize: nat): seq<Row> {
    Edges(StableTransactions(order, t, bundledIn, PositionCursor(p), pageSize), pageSize)
  }

  /** The position of the last cursor of a page. */
  function LastOf(page: seq<Row>): Position
    requires page != []
  {
    AtRow(page[|page| - 1])
  }

  lemma RemainingAfter(order: SortOrder, all: set<Row>, p: Position, last: Row)
    requires last in Remaining(order, all, p)
    ensures Remaining(order, all, AtRow(last)) == After(Precedence(order), Remaining(order, all, p), last)
  {
    if p.AtRow? {
      forall r | r in all && Precedes(order, last, r) ensures Precedes(order, p.row, r) {
        PrecedesIsStrict(order, p.row, last, r);
      }
    }
  }

  /** What is left after a page is less, and the page and it make up the listing. */
  lemma PageAndRest(order: SortOrder, t: Tables, bundledIn: BundledIn, p: Position, pageSize: nat)
    requires WellFormed(t) && pageSize > 0
    ensures Page(order, t, bundledIn, p, pageSize) == [] ==> Left(order, t, bundledIn, p) == {}
    ensures Page(order, t, bundledIn, p, pageSize) != [] ==>
      var rest := Left(order, t, bundledIn, LastOf(Page(order, t, bundledIn, p, pageSize)));
      && |rest| < |Left(order, t, bundledIn, p)|
      && Listing(Precedence(order), Left(order, t, bundledIn, p))
        == Page(order, t, bundledIn, p, pageSize) + Listing(Precedence(order), rest)
  {
    var less, rows := Precedence(order), Left(order, t, bundledIn, p);
    PageIsTop(order, t, bundledIn, p, pageSize);
    LeftSorts(order, t, bundledIn, p);
    PageSplits(less, rows, pageSize);
    var page := Top(less, rows, pageSize);
    if page != [] {
      LastIn(less, rows, pageSize);
      RemainingAfter(order, Visible(t, bundledIn), p, page[|page| - 1]);
    }
  }

  /** The rows shown when the cursor of each page's last row is followed until a page comes back empty. */
  ghost function Follow(order: SortOrder, t: Tables, bundledIn: BundledIn, p: Position, pageSize: nat): seq<Row>
    requires WellFormed(t) && pageSize > 0
    decreases |Left(order, t, bundledIn, p)|
  {
    PageAndRest(order, t, bundledIn, p, pageSize);
    var page := Page(order, t, bundledIn, p, pageSize);
    if page == [] then [] else page + Follow(order, t, bundledIn, LastOf(page), pageSize)
  }

  lemma {:induction false} FollowFrom(order: SortOrder, t: Tables, bundledIn: BundledIn, p: Position, pageSize: nat)
    requires WellFormed(t) && pageSize > 0
    ensures Follow(order, t, bundledIn, p, pageSize) == Listing(Precedence(order), Left(order, t, bundledIn, p))
    decreases |Left(order, t, bundledIn, p)|
  {
    PageAndRest(order, t, bundledIn, p, pageSize);
    var page := Page(order, t, bundledIn, p, pageSize);
    if page != [] {
      FollowFrom(order, t, bundledIn, LastOf(page), pageSize);
    }
  }

  /** Following last-row cursors to an empty page lists every matching row exactly once and in order, in both orders. */
  lemma FollowingListsEverything(order: SortOrder, t: Tables, bundledIn: BundledIn, pageSize: nat)
    requires WellFormed(t) && pageSize > 0
    ensures var shown := Follow(order, t, bundledIn, Start, pageSize);
      |shown| == |Visible(t, bundledIn)| && Rows(shown) == Visible(t, bundledIn) && Ascending(Precedence(order), shown)
  {
    var all := Visible(t, bundledIn);
    FollowFrom(order, t, bundledIn, Start, pageSize);
    KeysUniqueLess(t.txs + t.items, all);
    KeysSort(order, all);
    ListingIsComplete(Precedence(order), all);
  }
}
